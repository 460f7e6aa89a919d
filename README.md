# letters-mc-counter-face, modelled in Dafny

The program counts word and letter frequencies across one or more `.txt` files and prints two tables: one for words, one for letters. Each table has four columns:

- raw: every token;
- removed: every token that is not on the `-removeWord` list;
- swapped: every token after the last `-swapNgram` substitution;
- both: swapped tokens that are not removed.

Each column is ranked by count (descending), then by key (ascending). The words table is cut to the top 10.

The pipeline, as modelled:

- **Normalizer** turns one raw line into tokens of ASCII letters and digits. It lowercases the line, optionally strips HTML tags, deletes every other rune, and splits on spaces. It also flags a line that ends in a hyphen as broken.
- **Stitcher** models the two-line window of the scanner loop. A broken line's last token is glued onto the next line's first token.
- **Transformer** computes a token's swapped form.
- **Aggregator** holds the four frequency maps and four counters of one stats record. They are kept as a `Tally` value and as the `Stats` class that updates them in place.
- **Handler** models flag post-processing, the argument precheck, the per-file and per-line loops, and the whole `run`.
- **Reporter** models the ranking of each map, the top-N cut, and the layout of the table's rows.
- **Text** holds the Go `strings` functions the program relies on.
- **Base** holds the shared datatypes.

The file system is a parameter: a map from path to the file's lines.

## Model

| member | source | states |
|---|---|---|
| Text.TrimSpaceSpec | main.go:293 | TrimSpace cuts only white space, from both ends, and leaves a slice that neither starts nor ends with white space |
| Text.TrimSpaceEmpty | main.go:293-297 | a line trims to nothing exactly when it is all white space |
| Text.Split | main.go:155-158 | splitting on a separator gives one more part than the separator count, no part holds the separator, and joining the parts gives back the input |
| Text.ToLower | main.go:303 | lowering keeps the length and works rune by rune: A-Z, the Kelvin sign U+212A and U+0130 become ASCII lower case, every other rune is kept, and no A-Z is left |
| Text.CountCharLower | main.go:155-156 | lowercasing changes no comma count, so the swap value's comma test may be made before or after lowering |
| Text.ReplaceAllSame | main.go:326 | replacing a pattern by itself leaves the token unchanged |
| Text.ReplaceAllAbsent | main.go:326 | a non-empty pattern that does not occur leaves the token unchanged |
| Text.ReplaceAll | main.go:326 | a replacement no longer than a non-empty pattern never lengthens the token |
| Text.ReplaceAllEmptyPatternSpec | main.go:326 | an empty pattern inserts the replacement before every rune and at the end: the result has |s| + (|s| + 1) * |rep| runes, starts and ends with `rep`, and rune i of the token stands after i + 1 copies of `rep` |
| Text.ReplaceAllEmptyPattern | main.go:326 | worked case: the empty pattern with "x" turns "ab" into "xaxbx" |
| Normalizer.FilterSpec | main.go:308-312 | the character-class deletion keeps only runes of the class, never adds one, and never brings back an upper-case letter |
| Normalizer.FilterAppend | main.go:312 | the deletion works rune by rune, so it distributes over concatenation |
| Normalizer.HtmlMatchAt | main.go:281 | a match of the tag pattern is at least three runes long, lies within the line and holds a '<' |
| Normalizer.RemoveTags | main.go:309 | HTML-tag removal never lengthens the line and never brings back an upper-case letter |
| Normalizer.RemoveTagsNoAngle | main.go:306-310 | a line without '<' holds no tag and is left unchanged |
| Normalizer.RemoveTagsGlue | main.go:306-310 | a tag between two spaces is removed together with both spaces: for any text `a` and `b` without '<' and any alphanumeric tag name `w`, `a <w> b` becomes `a` followed directly by `b` |
| Normalizer.SpacedTagFirst | main.go:306-310 | a line that starts with a spaced tag, followed by text without '<', loses the tag and both spaces |
| Normalizer.RemoveTagsBefore | main.go:306-310 | text without '<' in front of a line starting with " <" is kept as it is and the rest is reduced on its own |
| Normalizer.RemoveTagsGlues | main.go:306-310 | worked line: "o <b> x" becomes "ox" |
| Normalizer.Fields | main.go:314 | every field is non-empty and holds no white space; fields of token text hold only a-z and 0-9 |
| Normalizer.FieldsConcat | main.go:314 | the fields, concatenated, are exactly the line's non-space runes, in order |
| Normalizer.FieldsSplit | main.go:314 | a space separates fields: the fields of `a c b` are those of `a` followed by those of `b` |
| Normalizer.Normalize | main.go:285-315 | every token is non-empty, and a broken line's trimmed text is longer than one rune and ends in '-' |
| Normalizer.NormalizeBlank | main.go:293-297 | a blank or white-space-only line gives no tokens and is not broken |
| Normalizer.NormalizeBroken | main.go:293-301 | broken holds exactly when the trimmed line is longer than one rune and ends in '-' |
| Normalizer.NormalizeTokens | main.go:303-314 | in either HTML mode every token is non-empty and holds only a-z and 0-9 |
| Normalizer.NormalizeSpells | main.go:303-314 | without HTML removal the tokens, concatenated, are the alphanumeric runes of the lowered line, in order |
| Normalizer.NormalizeHtmlNoAngle | main.go:306-312 | on a line without '<' the HTML mode does not change the result |
| Normalizer.NormalizeHyphen | main.go:299-314 | "co-" gives the token "co" and is broken |
| Normalizer.NormalizeLoneHyphen | main.go:299-301 | "-" gives no token and is not broken |
| Normalizer.NormalizePunctuation | main.go:303-314 | "Ab, C!" gives the tokens "ab" and "c" |
| Normalizer.NormalizeKelvin | main.go:303-314 | the Kelvin sign lowers to 'k' and is kept: "\u212Aing" gives the token "king" |
| Normalizer.NormalizeTab | main.go:312-314 | an internal tab is deleted rather than splitting the word: "a\tb" gives the single token "ab" |
| Transformer.SwappedForm | main.go:323-327 | with no swap, or a last swap whose source equals its target, the token is kept; a last swap whose target is no longer than its non-empty source never lengthens it |
| Transformer.SwapWord | main.go:323-327 | the swap loop returns the swapped form: the last swap applied to the original token, or the token itself when no swap is configured |
| Transformer.EarlierSwapsIgnored | main.go:325-327 | swaps before the last one have no effect; the result is ReplaceAll with the last swap |
| Transformer.SwapKeepsWord | main.go:323-327 | with no swap, or a last swap whose source does not occur, the swapped form is the token itself |
| Transformer.SwapExamples | main.go:325-327 | a worked pair of swaps, and an empty swap source inserting its target around every rune |
| Flags.ParseSwap | main.go:154-168 | a value is accepted exactly when it holds one comma; `from` and `to` are the lowered halves, without a comma; a refusal names the value |
| Flags.ParseSwapLowers | main.go:155-156 | the value is lowered before it is split |
| Flags.ParseSwapEmptyFrom | main.go:154-168 | an empty n-gram before the comma is accepted |
| Flags.ParseSwapRejects | main.go:160-163 | a value with no comma, or with two, is refused |
| Flags.ParseSwaps | main.go:154-169 | when every value parses, there is one swap per value |
| Flags.ParseSwapsOk | main.go:154-169 | all values parse exactly when each holds one comma, and swap i is the parse of value i |
| Flags.ParseSwapsErr | main.go:154-163 | a refusal names the first value, in input order, that does not parse |
| Flags.ParseSwapsStep | main.go:154-169 | one more parsed value extends the swaps by its parse, or makes it the first refused value |
| Flags.RemoveSet | main.go:171-173 | the remove set holds exactly the given words, not lowered |
| Flags.Precheck | main.go:187-197 | the precheck passes exactly when every argument ends in ".txt" and exists; a failure is the failure of some argument |
| Flags.PrecheckFirst | main.go:187-197 | the first argument that fails decides the error |
| Flags.PrecheckNotTxt | main.go:189-191 | a ".md" argument is refused even when it exists |
| Flags.PrecheckMissing | main.go:193-196 | a ".txt" argument the file system lacks is refused |
| Aggregator.IncX | main.go:381-396 | an empty key changes nothing; otherwise only key k changes, rising by exactly one from zero or its old count |
| Aggregator.SumIncX | main.go:381-396 | incX adds exactly one to the map's total, unless the key is empty |
| Aggregator.SumMono | main.go:352-376 | a map dominated by another has no larger total |
| Aggregator.EmptyTallyInv | main.go:116-127 | the fresh stats record satisfies the invariant |
| Aggregator.IncRaw | main.go:352-366 | the raw half of inc counts the raw key once more in universal, and in removed for a kept word (countRemoved instead for a removed one); count rises by one for a non-empty key; the swapped side is left alone |
| Aggregator.IncSwapped | main.go:368-376 | the swapped half of inc counts the swapped key once more in swapped, and in both with countBoth for a kept word; countSwapped rises by one for a non-empty key; the raw side is left alone |
| Aggregator.IncT | main.go:347-377 | inc counts the raw key in universal and the swapped key in swapped; removed gains the raw key and both the swapped key only for a kept word; a removed word raises countRemoved instead; two empty keys change nothing |
| Aggregator.IncTKeepsInv | main.go:347-377 | inc keeps the invariant (each counter is its map's total; count minus countRemoved is the removed map's total) and moves each counter by the step the source takes |
| Aggregator.IncRawKeepsInv | main.go:352-366 | the raw half of inc keeps the invariant and raises count, and countRemoved for a removed key |
| Aggregator.IncSwappedKeepsInv | main.go:368-376 | the swapped half of inc keeps the invariant and raises countSwapped, and countBoth for a key that is not removed |
| Aggregator.TallyBounds | main.go:352-376 | under the invariant, countBoth <= countSwapped, countRemoved <= count, and every stored count lies between 1 and its column total |
| Aggregator.Stats.constructor | main.go:116-127 | a new record has all counters zero and all maps empty |
| Aggregator.Stats.Inc | main.go:347-377 | the record's new value is inc applied to the old value |
| Aggregator.Stats.CountRaw | main.go:352-366 | the record's new value is the raw half of inc applied to the old value |
| Aggregator.Stats.CountSwapped | main.go:368-376 | the record's new value is the swapped half of inc applied to the old value |
| Stitcher.Glue | main.go:259-260 | gluing replaces only the last token, by that token followed by the next line's first |
| Stitcher.ShiftWindow | main.go:267-269 | one pass of the loop moves the window from line n to line n+1 |
| Stitcher.HandOverWindow | main.go:257-265 | a pass hands over line n-2, stitched when it was broken, or nothing when that line is empty |
| Stitcher.ScanLinesClosed | main.go:256-270 | after n scanned lines the loop's window and the lines handed over are the closed forms WindowAt and EmittedPrefix |
| Stitcher.ScanLinesEmitted | main.go:256-273 | the whole loop, then the final processLine, hands over exactly Emitted |
| Stitcher.StitchKeepsText | main.go:257-262 | stitching keeps every token character, in order: what was handed over, plus the line still held, spells the text of the lines scanned so far |
| Stitcher.Emitted | main.go:256-273 | at least one line is always handed over (the final call runs even on an empty file), and the final line is handed over last, exactly as normalize returned it |
| Stitcher.TwoLines | main.go:256-273 | with two lines only the second is processed |
| Stitcher.ThreeLines | main.go:256-273 | with three lines the first, stitched with the second when broken, and then the third are processed; the second line's remainder is lost |
| Stitcher.StitchExample | main.go:256-273 | the normalized lines ["won"] (broken), ["der", "land"] and ["end"] hand over ["wonder"] and then ["end"]; "land" is lost |
| Handler.FeedLinesConcat | main.go:256-273 | processing two runs of lines in turn is processing their concatenation |
| Handler.RawLetters | main.go:335-337 | the raw-letter loop counts each rune of the token once more, under its one-rune key, in universal, and in removed for a kept word; no other key changes and the swapped side is left alone |
| Handler.SwappedLetters | main.go:340-342 | the swapped-letter loop counts each rune of the swapped form once more, under its one-rune key, in swapped, and in both for a kept word; no other key changes and the raw side is left alone |
| Handler.FeedWord | main.go:321-342 | the words record counts the token in universal and its swapped form in swapped, and in removed and both only when the token is kept; words.count rises by one for a non-empty token; the letters record counts every rune of the token and of its swapped form |
| Handler.FeedWordRemovedSwapped | main.go:321-342 | worked token: with the swap "th,x" and "the" removed, "the" is still counted in universal and "xe" in swapped, and neither reaches removed or both |
| Handler.UpperRemoveWordUnused | main.go:329 | a remove word holding an upper-case letter leaves processLine's result unchanged for every token normalize returns, since tokens are lower-case and remove words are not lowered |
| Handler.FeedLine | main.go:317-344 | a line of non-empty tokens raises words.count by its token count |
| Handler.RawLettersCounts | main.go:335-337 | the raw-letter loop raises letters.count by the rune count, and countRemoved too for a removed word, keeping the invariant |
| Handler.SwappedLettersCounts | main.go:340-342 | the swapped-letter loop raises countSwapped by the rune count, and countBoth too for a word that is not removed, keeping the invariant |
| Handler.FeedWordCounts | main.go:321-342 | a token raises words.count by one, letters.count by its rune count and letters.countSwapped by its swapped form's rune count, keeping both invariants |
| Handler.FeedLineInv | main.go:317-344 | processLine keeps both invariants |
| Handler.FeedLinesInv | main.go:256-273 | any sequence of processed lines keeps both invariants |
| Handler.FeedFilesInv | main.go:199-204 | a whole run over the files keeps both invariants |
| Handler.PlainRunBalanced | main.go:317-344 | with no swaps and no remove words, the four counters of each record stay equal |
| Handler.CheckArgs | main.go:187-197 | the precheck loop returns the first argument's error, or none when every argument is a ".txt" file that exists |
| Handler.Handler.constructor | main.go:141-149 | a new handler has no remove words, no swaps, HTML removal off and two empty records |
| Handler.Handler.ParseFlags | main.go:152-178 | it succeeds exactly when every swap value parses; it then appends the swaps in order, adds the remove words and sets the HTML flag; otherwise it returns the first refused value, with the swaps before it already appended and nothing else changed |
| Handler.Handler.AddSwaps | main.go:154-169 | the swap loop appends every parsed swap in input order, or stops at the first refused value |
| Handler.Handler.AddRemoveWords | main.go:171-173 | the remove loop adds exactly the given words to the remove set |
| Handler.Handler.CountLetters | main.go:335-337 | the letters record becomes the raw-letter fold over the token's runes |
| Handler.Handler.CountSwappedLetters | main.go:340-342 | the letters record becomes the swapped-letter fold over the swapped form's runes |
| Handler.Handler.ProcessLine | main.go:317-344 | both records become the result of feeding every token of the line, in order |
| Handler.Handler.HandOver | main.go:257-265 | a pass feeds the lines it hands over and returns what remains of curr |
| Handler.Handler.ProcessFile | main.go:235-276 | both records become the result of feeding exactly the lines the stitching loop emits for the file |
| Handler.Handler.RunFiles | main.go:199-204 | every file, in argument order, is processed into both records |
| Handler.Handler.Run | main.go:180-213 | a refused swap value or a failed precheck ends the run with that error; a failed run leaves both records as they were; otherwise the configuration is extended, every file is fed, and the words table (top 10) and the letters table (no cut) are returned |
| Reporter.Compare | main.go:475 | strings.Compare returns -1, 0 or +1, and 0 exactly on equal strings |
| Reporter.CompareFlip | main.go:475 | swapping the arguments flips the sign |
| Reporter.CompareTrans | main.go:475 | the order strings.Compare defines is transitive |
| Reporter.CompareUnits | main.go:469-476 | the comparator returns 0 exactly on equal entries, a negative value when the first has the larger count, a positive one when it has the smaller, and on equal counts the key comparison |
| Reporter.RankingOrder | main.go:469-476 | in a ranking the counts never rise, and entries with equal counts stand in strictly ascending key order |
| Reporter.RankedTotal | main.go:469-476 | any two entries can be put in order by the comparator |
| Reporter.RankedTrans | main.go:469-476 | the comparator's order is transitive |
| Reporter.RankedAntisym | main.go:469-476 | the comparator leaves no ties between different entries |
| Reporter.InsertSorted | main.go:469-476 | inserting into a sorted list keeps it sorted |
| Reporter.SortSeqSpec | main.go:469-476 | the sort returns a sorted permutation of its input |
| Reporter.EnumeratesSize | main.go:461-467 | a list that names every entry of a map once has as many elements as the map has keys |
| Reporter.SortRanks | main.go:461-479 | sorting any list of a map's entries gives a ranking of the map |
| Reporter.RankingUnique | main.go:461-479 | a map has exactly one ranking |
| Reporter.SortUnits | main.go:469-476 | the sort method returns the sorted list |
| Reporter.ToUnitSlice | main.go:461-479 | returns every (key, count) entry of the map once, count descending and then key ascending: the map's unique ranking |
| Reporter.Top | main.go:416-432 | with top > 0 the list keeps its first min(len, top) entries; otherwise it is kept whole |
| Reporter.Cut | main.go:416-432 | one cut of print, written as the reslicing print does, returns the top-N prefix of its list |
| Reporter.TopKeepsBest | main.go:416-432 | every kept entry ranks ahead of every dropped one |
| Reporter.Headers | main.go:437-445 | four header cells named raw, removed, swapped and both, with totals count, count minus countRemoved, countSwapped and countBoth |
| Reporter.CellAt | main.go:495-512 | a cell is an entry exactly when the rank is within the list; the entry is that unit with the column's total |
| Reporter.RankingSize | main.go:461-479 | a ranking has one entry per key, so a column shows Size entries |
| Reporter.ReportShape | main.go:434-458 | the table has as many rows as the longest of the four cut lists, each with four cells |
| Reporter.ReportCell | main.go:448-458 | cell (i, c) is an entry exactly when i is within column c's list; the entry is the i-th ranked key with its count and the column total |
| Reporter.ReportBounded | main.go:448-458 | under the invariant every entry's count lies between 1 and its column total, so no percentage exceeds 100 |
| Reporter.Print | main.go:403-459 | print returns the table of the record: headers with the four totals, then one row per rank |

## Left out

- The command-line layer (cobra command, flag binding, `main`, exit codes) is left out. ParseFlags and Run take the flag values as parameters.
- File I/O is left out.
  - The file system is a map from path to lines. A path that exists is a key of that map.
  - The scanner's line splitting and its line-length limit are not modelled.
  - runFile's open failure is not modelled: with a fixed file map, an argument that passed the precheck can always be opened.
- Panic recovery and logging in processFile are left out. The model has no panics to recover.
- The `xsync` maps and counters are plain maps and numbers, and files are processed one after another, as the source does. Concurrency is not modelled.
- The table's text is not modelled: column widths, `fmt` formatting, floating-point percentages and humanize's SI prefixes.
  - A cell keeps its key, its count and its column total. The rank is the row's index.
  - ReportBounded states what bounds each percentage.
- Error messages and their wrapping are left out. An error is a constructor naming the offending value.
- Text.ToLower: lowers only the runes whose lower case is ASCII: A-Z, the Kelvin sign U+212A (to 'k') and U+0130 (to 'i'), as NormalizeKelvin shows.
  - Every other upper-case rune is kept as it is, where Go lowers it to another non-ASCII rune.
  - In a token that makes no difference: the alphanumeric filter deletes both forms.
  - A swap value holding such a rune keeps its upper-case form in the model, so its `from` and `to` differ from Go's.
- Strings are sequences of runes.
  - The broken-line test uses the byte length in the source. For a line that ends in '-', the byte length exceeds 1 exactly when the rune length does, so the two tests agree.
  - strings.Compare's byte order agrees with rune order for valid UTF-8.
- Reporter.CompareUnits computes `b.n - a.n` on unbounded integers. Go's int subtraction cannot overflow for counts of real inputs.
- The in-place write to `prev[len(prev)-1]` and the reslicing of `curr` are modelled on sequence values. Aliasing between the scanner's slices is not modelled.
- slices.SortFunc is modelled by an insertion sort. The comparator is total and leaves no ties (RankedAntisym), so every correct sort gives the same result (RankingUnique).
- The loop never hands the line before the last to processLine (TwoLines, ThreeLines, StitchExample).
