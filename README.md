# WordWise Counter: text statistics and the word-counter page

WordWise Counter is a web tool that counts words and characters in a
pasted text and asks a generative service to rewrite it. This project
models two parts of it in Dafny and proves the properties the code promises.

- **The statistics engine** (`src/lib/text-stats.ts`). `analyzeText` runs a
  fixed pipeline. It optionally strips a fixed punctuation set and splits
  the text into whitespace-separated tokens. It optionally drops the
  stopwords of the detected language and segments sentences on `.`, `!`
  and `?`. It then computes the character count, the reading time, the
  syllable total, the clamped Flesch Reading Ease score, a word-length
  histogram sorted by length, and the set of words within optional
  minimum and maximum lengths. `calculateReadability` and
  `getReadabilityDescription` sit beside it.
- **The word-counter page** (`src/app/word-counter/page.tsx`). The page has
  its own word counter, `getWordCount`. It also keeps a list of
  modification steps that the user edits by id. The handlers that change
  the page state are: changing, adding and removing a step
  (`HandleModificationChange`, `AddModification`, `RemoveModification`),
  clear, switch, and the request step of "modify".

The files:

- `Builtins.dfy` holds the JavaScript built-ins the code relies on. Their
  bodies follow the ECMAScript definitions, up to the differences listed
  under "Left out" (string lengths and `parseInt` precision):
  - `\s` and `trim` whitespace, taken as the ECMAScript WhiteSpace and
    LineTerminator code points;
  - `trim` and `trimStart`, whose contracts fix the result;
  - `split(/\s+/)`. The contracts fix its non-empty fields
    (`SplitFieldsAreRuns`). Where the empty fields fall is given only by the
    body; the code splits trimmed text and reads no empty field;
  - `Array.prototype.filter`;
  - `parseInt(s, 10)`.

  It also defines `JoinWithSpaces`, words joined by single spaces. No core
  code calls it. It builds the texts of the round-trip lemmas
  (`SplitOfJoin`, `RunCountOfJoin`) and of the end-to-end sample.
- `TextStats.dfy` holds the statistics engine.
- `WordCounter.dfy` holds the page. It is a class `WordCounterPage` whose
  fields are the page's `useState` cells, with one method per handler. The
  new list values are pure functions beside it.

Collaborators passed in, as the fields of `TextStats.Collaborators`:

- the `franc` language detector;
- the `stopwords-iso` table;
- the `syllable` estimator;
- `String.prototype.toLowerCase`.

The clock (`Date.now()`) is a parameter of `AddModification`. The awaited
result of the remote `modifyText` call is a parameter of `HandleModify`.

The model follows the code as written, including line 45 of
text-stats.ts, whose language code is the subject of the finding below.
`AnalyzeText` looks stopwords up under the truncated code. The corrected
lookup is `FilteredWords` given `LanguageCode` instead.

With neither length bound a number, every filtered word is highlighted
(text-stats.ts:89-90). `HighlightAllWhenUnbounded` states this.

The end-to-end test (e2e/word-counter.spec.ts) disagrees with the code in
two places:

- Its sample sentence (line 9) has **eleven** whitespace-separated words.
  The test expects 10 (line 17). `SampleSentenceWordCount` proves 11.
- The same sentence is 61 characters long. The test expects 60 (line 18).
  The model does not encode either number.

## Model

| member | source | states |
|---|---|---|
| Builtins.Trim | src/lib/text-stats.ts:49 | `trim()` returns a prefix of what follows the text's leading whitespace run, and only whitespace comes after that prefix; the result is empty exactly when the text is blank, and otherwise starts and ends with a non-whitespace character, so it is the text less its leading and trailing whitespace |
| Builtins.TrimStart | src/lib/text-stats.ts:87-88 | the leading whitespace `parseInt` skips: a suffix of the input, all of whose removed prefix is whitespace, starting with a non-whitespace character |
| Builtins.TrimEnd | src/lib/text-stats.ts:49 | the other half of `trim()`: a prefix of the input whose removed suffix is all whitespace, ending in a non-whitespace character |
| Builtins.TrimKeepsNonWhitespace | src/lib/text-stats.ts:49 | trimming removes whitespace only: the non-whitespace characters stay, in order |
| Builtins.Split | src/app/word-counter/page.tsx:43 | `split(/\s+/)` yields at least one field; no field contains whitespace, and the fields spell, in order, exactly the text's non-whitespace characters |
| Builtins.SplitCountsRuns | src/lib/text-stats.ts:49 | the non-empty fields of `split(/\s+/)` are exactly as many as the text's maximal non-whitespace runs |
| Builtins.SplitOfTrimmedHasNoEmptyField | src/app/word-counter/page.tsx:43 | splitting a trimmed, non-empty text yields no empty field, so `filter(Boolean)` is not needed there |
| Builtins.RunCountTrim | src/app/word-counter/page.tsx:43 | trimming does not change the number of words |
| Builtins.Filter | src/lib/text-stats.ts:52 | `filter` keeps only elements that pass the test, all taken from the input, and never lengthens it |
| Builtins.FilterIsSubsequence | src/lib/text-stats.ts:52 | a filtered list keeps the original order |
| Builtins.FilterMultiplicity | src/app/word-counter/page.tsx:61 | a filtered list holds every passing element exactly as often as the original and no failing element |
| Builtins.ParseInt | src/lib/text-stats.ts:87-88 | `parseInt(s, 10)` is NaN exactly when no digit follows the leading whitespace and optional sign |
| Builtins.ParseIntOfDecimal | src/lib/text-stats.ts:87-88 | every canonical decimal numeral (no whitespace, sign or leading zero) parses back to its value |
| Builtins.ParseIntOfNumeral | src/lib/text-stats.ts:87-88 | a length field holding whitespace, an optional `+` or `-`, digits (leading zeros allowed) and then anything not starting with a digit parses to the digits' value, negated for `-` |
| Builtins.ParseIntOfEmpty | src/lib/text-stats.ts:89-90 | an empty length field is NaN, so it imposes no bound |
| Builtins.RunCountOfJoin | e2e/word-counter.spec.ts:9 | words joined by single spaces form a text with exactly that many words |
| Builtins.SplitOfJoin | src/lib/text-stats.ts:49 | splitting words joined by single spaces gives back exactly those words |
| Builtins.SplitFieldsAreRuns | src/lib/text-stats.ts:49 | on every text, the non-empty fields of `split(/\s+/)` are exactly the maximal non-whitespace runs, in order |
| Builtins.RunsTrim | src/lib/text-stats.ts:49 | trimming keeps the maximal runs |
| TextStats.CalculateReadability | src/lib/text-stats.ts:14-25 | the score is 0 when there are no words or no sentences, so nothing is divided by zero; otherwise it is the Flesch formula clamped into [0, 100], reported unchanged when already inside |
| TextStats.FleschReadingEase | src/lib/text-stats.ts:20-23 | the unclamped Flesch score never exceeds 206.835 less 1.015 times the words per sentence, so it stays below 206.835 |
| TextStats.ReadabilityNonIncreasingInSyllables | src/lib/text-stats.ts:20-24 | more syllables never raise the score |
| TextStats.ReadabilityNonDecreasingInSentences | src/lib/text-stats.ts:20-24 | spreading the same words over more sentences never lowers the score, including from no sentences, whose score is 0 |
| TextStats.ReadabilityBand | src/lib/text-stats.ts:27-35 | the chosen band is the first threshold (90, 80, 70, 60, 50, 30) the score reaches, tried from the top, or the last band when it reaches none |
| TextStats.GetReadabilityDescription | src/lib/text-stats.ts:27-35 | the description is one of the seven fixed strings: that of the first threshold met, or the last when none is |
| TextStats.DescriptionMonotone | src/lib/text-stats.ts:27-35 | a higher score never lands in a harder band |
| TextStats.StripPunctuation | src/lib/text-stats.ts:40-42 | the processed text has none of the listed punctuation characters, is the input with exactly those characters removed in order, and is never longer |
| TextStats.ProcessedText | src/lib/text-stats.ts:39-42 | the input unchanged unless punctuation is ignored; then it has none of the listed characters and is the input with exactly those removed, in order |
| TextStats.TruncatedLanguageCode | src/lib/text-stats.ts:45 | `und` gives `en`; any other answer gives its first two characters |
| TextStats.TruncationMisnamesSpanishAndPortuguese | src/lib/text-stats.ts:45 | truncation gives `sp` and `po`, while the stopword table's keys for Spanish and Portuguese are `es` and `pt` |
| TextStats.LanguageCode | src/lib/text-stats.ts:45 | `und` gives `en`, and each candidate language gives its ISO 639-1 code |
| TextStats.LanguageCodeAgreesWithTruncation | src/lib/text-stats.ts:45 | the corrected code differs from truncation only for Spanish and Portuguese |
| TextStats.LanguageCodeOfDetection | src/lib/text-stats.ts:44-45 | every answer the restricted detector can give leads to the code of a candidate language |
| TextStats.MissingListRemovesNothing | src/lib/text-stats.ts:46-52 | a code with no list in the table gives the empty set (the `[]` fallback of line 46), and filtering with it keeps every word |
| TextStats.MissingListKeepsEveryToken | src/lib/text-stats.ts:45-53 | whenever the key made of the detected language has no list, the filtered words are all the tokens, stopwords ignored or not |
| TextStats.SpanishAndPortugueseKeepEveryToken | src/lib/text-stats.ts:45-53 | with the code as written, a text detected as Spanish or Portuguese keeps all its tokens when the table has no `sp` or `po` list |
| TextStats.Tokenize | src/lib/text-stats.ts:49 | the tokens are exactly the text's maximal non-whitespace runs, in order, as the independent `Runs` lists them; none is empty or contains whitespace; there are as many as the text has runs; and they spell, in order, exactly the text's non-whitespace characters |
| TextStats.TokenizeOfJoin | src/lib/text-stats.ts:49 | tokenizing words joined by single spaces gives back exactly those words |
| TextStats.RemoveStopwords | src/lib/text-stats.ts:52 | the kept words are never more than the words; they are an order-preserving sublist with every stopword occurrence (after lower-casing) removed, and every other word kept as often as before |
| TextStats.FilteredWords | src/lib/text-stats.ts:45-53 | the filtered words are an ordered sublist of the tokens, never more than the text's word runs; they equal the tokens when stopwords are kept, and otherwise the tokens less the stopwords listed under the key the given code mapping makes of the detected language |
| TextStats.CorrectionChangesOnlySpanishAndPortuguese | src/lib/text-stats.ts:45-53 | the corrected code gives the same filtered words as the truncated one whenever the detector answers neither `spa` nor `por` |
| TextStats.SpanishStopwordKept | src/lib/text-stats.ts:45-53 | with "el" detected as Spanish and listed as a stopword under `es`, and "el" lower-casing to itself, the code as written keeps it while the corrected code removes it |
| TextStats.SentenceMatches | src/lib/text-stats.ts:55 | every regex match is a non-empty stretch of non-terminator text followed by a non-empty run of terminators that ends the match |
| TextStats.SentenceMatchesCount | src/lib/text-stats.ts:55 | the global match finds one sentence per terminator run that follows other text |
| TextStats.TerminatorsAfterTextConcat | src/lib/text-stats.ts:55 | the sentence count of a concatenation is that of each part, the second read from where the first ends |
| TextStats.TerminatorsOfOneSentence | src/lib/text-stats.ts:55 | text that ends in its only terminator is one sentence |
| TextStats.Sentences | src/lib/text-stats.ts:55 | no sentence for the empty text; the regex matches when there is a terminated sentence; else the whole text as one sentence |
| TextStats.SentenceCount | src/lib/text-stats.ts:55 | the sentence count is 0 exactly for the empty text; otherwise it is the number of terminated sentences, or 1 when there are none |
| TextStats.TwoSentenceExample | src/lib/text-stats.ts:55 | "Hello world. Hello there!" has two sentences |
| TextStats.CharCount | src/lib/text-stats.ts:58-60 | the count is the original text's length with spaces, and that length less its whitespace characters without |
| TextStats.CharCountWithoutSpacesNeverLarger | src/lib/text-stats.ts:58-60 | leaving spaces out never raises the character count |
| TextStats.ReadingTime | src/lib/text-stats.ts:61 | the reading time is the least whole number of minutes covering the words at 200 a minute; it is 0 exactly when there are no words |
| TextStats.SyllableCount | src/lib/text-stats.ts:62-65 | the total is 0 for no words, at least each word's own count, and at least the number of words when every word has a syllable |
| TextStats.SyllableCountAppend | src/lib/text-stats.ts:62-65 | the total over two word lists in a row is the sum of their totals |
| TextStats.SyllableCountOfOne | src/lib/text-stats.ts:62-65 | a single word contributes exactly its own syllables, so with the sum lemma the total is the sum of every word's count |
| TextStats.SyllableCountOfSubsequence | src/lib/text-stats.ts:62-65 | dropping words never raises the syllable total |
| TextStats.IgnoringStopwordsNeverIncreases | src/lib/text-stats.ts:51-65 | turning on the stopword filter never raises the word count or the syllable total |
| TextStats.WordLengthDistribution | src/lib/text-stats.ts:72-78 | the histogram has a key for exactly the positive lengths that occur, each mapped to the number of words of that length |
| TextStats.Minimum | src/lib/text-stats.ts:83 | returns the least element of a non-empty set of lengths, the next one the sort places |
| TextStats.ChartData | src/lib/text-stats.ts:80-83 | the chart has every histogram entry exactly once, with its count, strictly ascending by length |
| TextStats.WordLengthChart | src/lib/text-stats.ts:72-83 | the chart built from the filtered words is strictly ascending by length; its lengths are exactly the lengths the words have, each with its number of words, and its counts add up to the number of words |
| TextStats.AppendAscending | src/lib/text-stats.ts:83 | appending an entry longer than every entry so far keeps the chart sorted |
| TextStats.ChartSumsToWordCount | src/lib/text-stats.ts:72-83 | when no word is empty, the chart counts add up to the word count |
| TextStats.LengthCountPositive | src/lib/text-stats.ts:74-75 | every word's length occurs in the histogram |
| TextStats.LengthCountWitness | src/lib/text-stats.ts:74-75 | every length the histogram counts is the length of some word |
| TextStats.EmptyChart | src/lib/text-stats.ts:72-83 | no words give an empty chart |
| TextStats.HighlightedWords | src/lib/text-stats.ts:85-92 | a word is highlighted exactly when it is a filtered word whose length meets every bound that parses |
| TextStats.HighlightAllWhenUnbounded | src/lib/text-stats.ts:89-90 | with neither bound a number, every filtered word is highlighted |
| TextStats.ParseIntOfFive | src/lib/text-stats.ts:87 | the minimum "5" parses to 5 |
| TextStats.HighlightWithMinimumOnly | src/lib/text-stats.ts:85-92 | with only a minimum that parses, the highlighted words are exactly the filtered words at least that long |
| TextStats.HighlightExample | src/lib/text-stats.ts:85-92 | of the text "cat dog elephant", with a minimum of "5" and no maximum, only "elephant" is highlighted |
| TextStats.AnalyzeText | src/lib/text-stats.ts:38-103 | every field of the result is that metric of the filtered words, looked up under the truncated language code of line 45, or of the original text. The word count never exceeds the processed text's word runs and equals them when stopwords are kept. The score lies in [0, 100]. No words gives zero reading time and zero score. The chart's lengths are exactly the words' lengths, strictly ascending, each with its count, summing to the word count |
| TextStats.EmptyTextAnalysis | src/lib/text-stats.ts:38-103 | the empty text has no words, characters or sentences, zero reading time and score, and nothing highlighted |
| WordCounter.GetWordCount | src/app/word-counter/page.tsx:41-44 | blank text counts 0 words; any other text counts its maximal non-whitespace runs, at least one |
| WordCounter.EmptyTextHasNoWords | src/app/word-counter/page.tsx:42 | the empty text, which clear and switch leave behind, counts 0 words |
| WordCounter.WordCountAgreesWithAnalyzer | src/app/word-counter/page.tsx:43 | the page's count equals the analyzer's token count on every text |
| WordCounter.SampleSentenceWordCount | e2e/word-counter.spec.ts:9-17 | the test's sample sentence, as written, counts 11 words |
| WordCounter.ModificationsChanged | src/app/word-counter/page.tsx:53 | length and order are kept; records with another id are unchanged; records with the id change only the named field |
| WordCounter.ModificationsAdded | src/app/word-counter/page.tsx:57 | the old records are kept in place, followed by one new `summarize` step with an empty length |
| WordCounter.AddKeepsIdsUnique | src/app/word-counter/page.tsx:57 | adding under a clock value no record has keeps the ids unique |
| WordCounter.ModificationsRemoved | src/app/word-counter/page.tsx:61 | the result is the original records minus every record with that id, in the original order, and never longer |
| WordCounter.RemoveFromUnique | src/app/word-counter/page.tsx:61 | with unique ids, removing removes exactly one record when the id is present and none otherwise |
| WordCounter.RemovedKeepsIdsUnique | src/app/word-counter/page.tsx:61 | removing a record keeps the ids of the rest unique |
| WordCounter.ChangedKeepsIdsUnique | src/app/word-counter/page.tsx:53 | changing a field of a record keeps the ids unique |
| WordCounter.SubsequenceKeepsIdsUnique | src/app/word-counter/page.tsx:61 | any selection of records, in order, from a list with unique ids has unique ids |
| WordCounter.UiRemovalKeepsOneModification | src/app/word-counter/page.tsx:167-171 | the remove button appears only with more than one step and removes a listed id, so with unique ids at least one step remains |
| WordCounter.DuplicateIdsLetUiRemovalEmptyTheList | src/app/word-counter/page.tsx:57 | two steps added in the same millisecond share an id, and removing it empties the list |
| WordCounter.Steps | src/app/word-counter/page.tsx:78 | the request carries each step's type and length, in order, without its id |
| WordCounter.WordCounterPage.constructor | src/app/word-counter/page.tsx:33-38 | the page starts with empty texts, one `changeLength` step of length `100` with id 1, and not loading |
| WordCounter.WordCounterPage.WordCount | src/app/word-counter/page.tsx:46 | the count under the input is its number of words, and 0 exactly when it is blank |
| WordCounter.WordCounterPage.ModifiedWordCount | src/app/word-counter/page.tsx:49 | the count under the modified text is its number of words, and 0 exactly when it is blank |
| WordCounter.WordCounterPage.HandleModificationChange | src/app/word-counter/page.tsx:52-54 | the list becomes the changed list and nothing else changes |
| WordCounter.WordCounterPage.AddModification | src/app/word-counter/page.tsx:56-58 | the list gains the new step and nothing else changes |
| WordCounter.WordCounterPage.RemoveModification | src/app/word-counter/page.tsx:60-62 | the list loses the records with the id and nothing else changes |
| WordCounter.WordCounterPage.HandleModify | src/app/word-counter/page.tsx:64-92 | with empty text: no request is made and the output text and loading flag are untouched. Otherwise the request carries the text and the steps, the output becomes the service's answer or stays cleared on failure, and loading ends. The input text and the list never change |
| WordCounter.WordCounterPage.HandleClear | src/app/word-counter/page.tsx:94-97 | both texts become empty; the list and loading flag are untouched |
| WordCounter.WordCounterPage.HandleSwitch | src/app/word-counter/page.tsx:107-110 | the input takes the previous output and its word count, and the output is cleared; the list and loading flag are untouched |

## Left out

- Language detection (`franc`), the `stopwords-iso` table and the
  `syllable` estimator are foreign libraries. They are passed in as
  uninterpreted fields of `Collaborators`.
- `toLowerCase` is a JavaScript built-in. It is also an uninterpreted field
  of `Collaborators`, so case folding is not modelled. The only lemma that
  assumes a value of it is `SpanishStopwordKept`, which requires that "el"
  lower-cases to itself.
- TextStats.CalculateReadability: computed over exact reals, not IEEE
  doubles. Rounding of the Flesch formula is not modelled.
- String lengths count code points. JavaScript's `length` counts UTF-16
  units, so a character outside the Basic Multilingual Plane counts twice
  in the source and once here.
- Builtins.ParseInt: exact for every numeral. The source's `parseInt`
  loses precision above 2^53, which the model does not follow.
- The chart's `parseInt(length)` applied to object keys: the model keeps
  the lengths as naturals throughout. That is the value those keys
  round-trip to.
- TextStats.ChartData: the source sorts the entries with `Array.sort`.
  The model builds the same ascending list by repeated minimum extraction,
  so only the result is modelled, not the sorting algorithm.
- WordCounter.WordCounterPage.HandleModify: the intermediate
  `isLoading = true` state and cleared output are overwritten before the
  method returns. The model states only the final state. The await, the
  error toasts and `console.error` are asynchronous I/O and are left out;
  the service's answer or its failure is the `outcome` parameter.
- `handleCopy` (clipboard and toast) and all React rendering are I/O or
  presentation. The page's `text.length` character counts are the same
  one-line length as the `includeSpaces` branch of `TextStats.CharCount`,
  so they are not modelled a second time. The one piece of
  rendering logic kept is the condition for showing the remove button,
  stated by `UiRemovalKeepsOneModification`.
- The generative flows and their schemas have no logic of their own:
  `src/ai/flows/modify-text.ts`, `summarize-text.ts`, `test-text.ts` and
  `src/ai/schemas/modify-text.ts`.
- The presentation files `src/app/page.tsx`, `src/components/header.tsx`
  and `src/components/test-summary.tsx` contain nothing to compute.

## Findings

| source | as written | input that shows it | evidently intended | confidence | as-written member | corrected member |
|---|---|---|---|---|---|---|
| src/lib/text-stats.ts:45 | `lang.slice(0, 2)` turns the detector's ISO 639-3 answer into a stopword-table key | `spa` (Spanish) gives `sp` and `por` (Portuguese) gives `po`. The table's keys are `es` and `pt`, so no stopwords are removed for those languages: the text "el" detected as Spanish keeps "el" | map each candidate language to its ISO 639-1 code | medium, not executed | TextStats.TruncatedLanguageCode, TextStats.SpanishStopwordKept, TextStats.SpanishAndPortugueseKeepEveryToken | TextStats.LanguageCode, TextStats.CorrectionChangesOnlySpanishAndPortuguese |
