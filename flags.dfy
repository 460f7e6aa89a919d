/**
 * Post-processing of the command-line flags (parseFlags, main.go:153-178) and
 * the precheck of the file arguments (main.go:187-197).
 */
module Flags {
  import opened Base
  import opened Text
  import opened Transformer

  /** The ways the command refuses its input before any file is read. */
  datatype Error =
    | BadSwapSpec(input: String)  // a -swapNgram value without exactly one ','
    | NotTxt(path: String)        // an argument not ending in ".txt"
    | Missing(path: String)       // an argument the file system does not hold

  /**
   * One -swapNgram value: lowered, then split on ','. It is accepted exactly
   * when it holds one comma; the two halves, joined by that comma, give back
   * the lowered value.
   */
  function ParseSwap(spec: String): (r: Result<NGramSwap, Error>)
    ensures r.Ok? <==> CountChar(spec, ',') == 1
    ensures r.Ok? ==> r.value.from + [','] + r.value.to == ToLower(spec)
    ensures r.Ok? ==> ',' !in r.value.from && ',' !in r.value.to
    ensures r.Err? ==> r.error == BadSwapSpec(spec)
  {
    var parts := Split(ToLower(spec), ',');
    CountCharLower(spec, ',');
    if |parts| != 2 then Err(BadSwapSpec(spec))
    else
      assert Join(parts, ',') == parts[0] + [','] + Join(parts[1..], ',');
      Ok(NGramSwap(parts[0], parts[1]))
  }

  /** ParseSwap, stated on the parts of the split: the form the parseFlags loop computes. */
  lemma ParseSwapParts(spec: String)
    ensures var parts := Split(ToLower(spec), ',');
      ParseSwap(spec) == if |parts| != 2 then Err(BadSwapSpec(spec)) else Ok(NGramSwap(parts[0], parts[1]))
  {
  }

  /** Worked value: the value is lowered before it is split. */
  lemma ParseSwapLowers()
    ensures ParseSwap("TH,x") == Ok(NGramSwap("th", "x"))
  {
    assert ToLower("TH,x") == "th,x";
    SplitThX();
  }

  lemma SplitThX()
    ensures Split("th,x", ',') == ["th", "x"]
  {
    assert Split("x", ',') == ["x"];
    assert ",x"[1..] == "x";
    assert Split(",x", ',') == ["", "x"];
    assert "h,x"[1..] == ",x";
    var r1 := Split(",x", ',');
    assert r1[0] == [] && r1[1..] == ["x"];
    assert ['h'] + r1[0] == "h";
    assert [['h'] + r1[0]] + r1[1..] == ["h", "x"];
    assert Split("h,x", ',') == ["h", "x"];
    assert ['t'] + "h" == "th";
    assert [['t'] + "h"] + ["x"] == ["th", "x"];
    assert ["h", "x"][1..] == ["x"];
    assert "th,x"[1..] == "h,x";
  }

  /** Worked value: an empty n-gram before the comma is accepted. */
  lemma ParseSwapEmptyFrom()
    ensures ParseSwap(",x") == Ok(NGramSwap("", "x"))
  {
    assert ToLower(",x") == ",x";
    assert Split("x", ',') == ["x"];
    assert ",x"[1..] == "x";
    assert Split(",x", ',') == ["", "x"];
  }

  /** A value with no comma, or with two, is refused. */
  lemma ParseSwapRejects()
    ensures ParseSwap("th") == Err(BadSwapSpec("th"))
    ensures ParseSwap("a,b,c") == Err(BadSwapSpec("a,b,c"))
  {
    assert CountChar("th", ',') == 0;
    assert CountChar("a,b,c", ',') == 2;
  }

  /** The first value, in input order, that ParseSwap refuses. */
  predicate FirstBad(specs: seq<String>, i: nat) {
    i < |specs| && ParseSwap(specs[i]).Err?
    && forall j :: 0 <= j < i ==> ParseSwap(specs[j]).Ok?
  }

  /** All -swapNgram values, in order, stopping at the first one ParseSwap refuses. */
  function ParseSwaps(specs: seq<String>): (r: Result<seq<NGramSwap>, Error>)
    ensures r.Ok? ==> |r.value| == |specs|
  {
    if specs == [] then Ok([])
    else
      match ParseSwaps(specs[..|specs| - 1])
      case Err(e) => Err(e)
      case Ok(p) =>
        match ParseSwap(specs[|specs| - 1])
        case Err(e) => Err(e)
        case Ok(s) => Ok(p + [s])
  }

  /** Every value parses exactly when each holds one comma, and the swaps keep the input order. */
  lemma {:induction false} ParseSwapsOk(specs: seq<String>)
    ensures var r := ParseSwaps(specs);
      && (r.Ok? <==> forall i :: 0 <= i < |specs| ==> CountChar(specs[i], ',') == 1)
      && (r.Ok? ==> forall i :: 0 <= i < |specs| ==> ParseSwap(specs[i]) == Ok(r.value[i]))
  {
    if specs != [] {
      var init, last := specs[..|specs| - 1], |specs| - 1;
      ParseSwapsOk(init);
      assert forall j :: 0 <= j < last ==> specs[j] == init[j];
      if ParseSwaps(init).Ok? && ParseSwap(specs[last]).Ok? {
        var p := ParseSwaps(init).value;
        var value := p + [ParseSwap(specs[last]).value];
        assert ParseSwaps(specs) == Ok(value);
        forall j | 0 <= j < |specs|
          ensures ParseSwap(specs[j]) == Ok(value[j])
        {
          if j < last {
            assert specs[j] == init[j] && value[j] == p[j];
          }
        }
      }
    }
  }

  /** A refusal names the first value that does not parse. */
  lemma {:induction false} ParseSwapsErr(specs: seq<String>)
    ensures var r := ParseSwaps(specs);
      r.Err? ==> exists i: nat :: FirstBad(specs, i) && r.error == BadSwapSpec(specs[i])
  {
    if specs != [] {
      var init, last := specs[..|specs| - 1], |specs| - 1;
      ParseSwapsErr(init);
      ParseSwapsOk(init);
      assert forall j :: 0 <= j < last ==> specs[j] == init[j];
      match ParseSwaps(init)
      case Err(e) =>
        var i: nat :| FirstBad(init, i) && e == BadSwapSpec(init[i]);
        assert FirstBad(specs, i);
      case Ok(p) =>
        if ParseSwap(specs[last]).Err? {
          assert FirstBad(specs, last);
        }
    }
  }

  /** Parsing one more value extends the swaps, or stops at that value. */
  lemma ParseSwapsStep(specs: seq<String>, i: nat)
    requires i < |specs| && ParseSwaps(specs[..i]).Ok?
    ensures ParseSwap(specs[i]).Ok? ==>
      ParseSwaps(specs[..i + 1]) == Ok(ParseSwaps(specs[..i]).value + [ParseSwap(specs[i]).value])
    ensures ParseSwap(specs[i]).Err? ==> FirstBad(specs, i)
  {
    assert specs[..i + 1][..i] == specs[..i];
    assert specs[..i + 1][i] == specs[i];
    ParseSwapsOk(specs[..i]);
  }

  /** The remove set holds the -removeWord values exactly as given. */
  function RemoveSet(words: seq<String>): (r: set<String>)
    ensures forall w :: w in r <==> w in words
  {
    set w | w in words
  }

  /** The precheck's first test: the argument must end in ".txt". */
  predicate IsTxtPath(path: String) {
    HasSuffix(path, ".txt")
  }

  /**
   * Argument `i` is the first to fail the precheck, and `e` is the error it
   * draws: NotTxt when it does not end in ".txt", Missing otherwise.
   */
  predicate PrecheckFailsAt(args: seq<String>, files: set<String>, i: nat, e: Error)
    requires i < |args|
  {
    (forall j :: 0 <= j < i ==> IsTxtPath(args[j]) && args[j] in files)
    && !(IsTxtPath(args[i]) && args[i] in files)
    && e == (if !IsTxtPath(args[i]) then NotTxt(args[i]) else Missing(args[i]))
  }

  /**
   * The precheck of all arguments, in order: the first one that does not end in
   * ".txt", or else is missing from the file system, stops the command.
   */
  function Precheck(args: seq<String>, files: set<String>): (r: Option<Error>)
    ensures r.None? <==> forall i :: 0 <= i < |args| ==> IsTxtPath(args[i]) && args[i] in files
    ensures r.Some? ==> exists i :: 0 <= i < |args| && PrecheckFailsAt(args, files, i, r.value)
  {
    if args == [] then None
    else if !IsTxtPath(args[0]) then
      assert PrecheckFailsAt(args, files, 0, NotTxt(args[0]));
      Some(NotTxt(args[0]))
    else if args[0] !in files then
      assert PrecheckFailsAt(args, files, 0, Missing(args[0]));
      Some(Missing(args[0]))
    else
      var r := Precheck(args[1..], files);
      assert forall i :: 1 <= i < |args| ==> args[i] == args[1..][i - 1];
      if r.Some? then
        var i :| 0 <= i < |args| - 1 && PrecheckFailsAt(args[1..], files, i, r.value);
        assert PrecheckFailsAt(args, files, i + 1, r.value);
        r
      else r
  }

  /** Worked precheck: a ".md" argument is refused even when it exists. */
  lemma PrecheckNotTxt()
    ensures Precheck(["a.txt", "b.md"], {"a.txt", "b.md"}) == Some(NotTxt("b.md"))
  {
    assert "a.txt"[1..] == ".txt";
    assert IsTxtPath("a.txt");
    assert !IsTxtPath("b.md");
    assert ["a.txt", "b.md"][1..] == ["b.md"];
  }

  /** The first argument that fails decides the precheck's error. */
  lemma {:induction false} PrecheckFirst(args: seq<String>, files: set<String>, i: nat, e: Error)
    requires i < |args| && PrecheckFailsAt(args, files, i, e)
    ensures Precheck(args, files) == Some(e)
  {
    if i > 0 {
      assert forall j :: 0 <= j < |args| - 1 ==> args[1..][j] == args[j + 1];
      assert PrecheckFailsAt(args[1..], files, i - 1, e);
      PrecheckFirst(args[1..], files, i - 1, e);
    }
  }

  /** Worked precheck: a ".txt" argument the file system lacks is refused. */
  lemma PrecheckMissing()
    ensures Precheck(["a.txt", "c.txt"], {"a.txt"}) == Some(Missing("c.txt"))
  {
    assert "a.txt"[1..] == ".txt";
    assert "c.txt"[1..] == ".txt";
    assert IsTxtPath("a.txt") && IsTxtPath("c.txt");
    assert "c.txt" != "a.txt";
    assert ["a.txt", "c.txt"][1..] == ["c.txt"];
  }
}
