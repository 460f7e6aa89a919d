/**
 * The swapped form of a token (main.go:323-327): the configured n-gram swaps
 * are tried in order, but each one is applied to the ORIGINAL token, so only
 * the last swap decides the result.
 */
module Transformer {
  import opened Text

  /** One `-swapNgram=from,to` pair. */
  datatype NGramSwap = NGramSwap(from: String, to: String)

  /**
   * What the swap loop leaves in `swapped`: the token itself when there is no
   * swap, otherwise every occurrence of the last swap's `from` replaced by its `to`.
   */
  function SwappedForm(word: String, swaps: seq<NGramSwap>): (r: String)
    ensures swaps == [] ==> r == word
    ensures swaps != [] && swaps[|swaps| - 1].from == swaps[|swaps| - 1].to ==> r == word
    // a last swap whose target is no longer than its source never lengthens a token
    ensures (swaps != [] && swaps[|swaps| - 1].from != [] &&
             |swaps[|swaps| - 1].to| <= |swaps[|swaps| - 1].from|) ==> |r| <= |word|
  {
    if swaps == [] then word
    else
      ReplaceAllSame(word, swaps[|swaps| - 1].from);
      ReplaceAll(word, swaps[|swaps| - 1].from, swaps[|swaps| - 1].to)
  }

  /** The swap loop of processLine, reassigning `swapped` from `word` on every pass. */
  method SwapWord(word: String, swaps: seq<NGramSwap>) returns (swapped: String)
    ensures swapped == SwappedForm(word, swaps)
  {
    swapped := word;
    for i := 0 to |swaps|
      invariant swapped == SwappedForm(word, swaps[..i])
    {
      swapped := ReplaceAll(word, swaps[i].from, swaps[i].to);
      assert swaps[..i + 1][i] == swaps[i];
    }
    assert swaps[..|swaps|] == swaps;
  }

  /** Swaps configured before the last one have no effect on any token. */
  lemma EarlierSwapsIgnored(word: String, earlier: seq<NGramSwap>, last: NGramSwap)
    ensures SwappedForm(word, earlier + [last]) == SwappedForm(word, [last])
    ensures SwappedForm(word, earlier + [last]) == ReplaceAll(word, last.from, last.to)
  {
    assert (earlier + [last])[|earlier + [last]| - 1] == last;
  }

  /** A token is left as it is when no swap is configured, or the last swap's source does not occur in it. */
  lemma SwapKeepsWord(word: String, swaps: seq<NGramSwap>)
    requires swaps == [] || (swaps[|swaps| - 1].from != [] && !Occurs(word, swaps[|swaps| - 1].from))
    ensures SwappedForm(word, swaps) == word
  {
    if swaps != [] {
      ReplaceAllAbsent(word, swaps[|swaps| - 1].from, swaps[|swaps| - 1].to);
    }
  }

  /** Worked swaps: `th,x` on "the", and an empty source `,x` on "ab". */
  lemma SwapExamples()
    ensures SwappedForm("the", [NGramSwap("e", "y"), NGramSwap("th", "x")]) == "xe"
    ensures SwappedForm("ab", [NGramSwap("", "x")]) == "xaxbx"
  {
    assert HasPrefix("the", "th");
    assert "the"[2..] == "e";
    assert !HasPrefix("e", "th");
    assert "e"[1..] == [];
    ReplaceAllEmptyPattern();
  }
}
