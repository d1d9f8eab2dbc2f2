/**
 * The text-statistics engine of src/lib/text-stats.ts: `analyzeText` and
 * its two companions `calculateReadability` and `getReadabilityDescription`.
 *
 * The three libraries the engine calls (the `franc` language detector, the
 * `stopwords-iso` table and the `syllable` estimator), and the
 * `toLowerCase` it applies to words, are passed in as a `Collaborators`
 * value; nothing is assumed about what they return.
 */
module TextStats {
  import opened Builtins

  datatype AnalysisOptions = AnalysisOptions(
    includeSpaces: bool,
    ignorePunctuation: bool,
    ignoreStopwords: bool,
    minWordLength: string,
    maxWordLength: string)

  datatype Collaborators = Collaborators(
    /** `franc(text, {minLength: 3, only: Candidates})`: a three-letter code or "und". */
    detect: string -> string,
    /** `stopwords-iso`: stopword lists keyed by two-letter language code. */
    stopwords: map<string, set<string>>,
    toLowerCase: string -> string,
    /** `syllable`: the estimated syllable count of one word. */
    syllables: string -> nat)

  datatype ChartEntry = ChartEntry(length: nat, count: nat)

  datatype AnalysisResult = AnalysisResult(
    wordCount: nat,
    charCount: nat,
    readingTime: nat,
    syllableCount: nat,
    readabilityScore: real,
    chartData: seq<ChartEntry>,
    highlightedWords: set<string>)

  // ---------------------------------------------------------------------
  // Readability

  function Max(a: real, b: real): real { if a >= b then a else b }
  function Min(a: real, b: real): real { if a <= b then a else b }

  /**
   * The Flesch Reading Ease formula, before clamping: 206.835 less a
   * penalty for words per sentence, which is never zero, and one for
   * syllables per word.
   */
  function FleschReadingEase(words: nat, sentences: nat, syllables: nat): (raw: real)
    requires words > 0 && sentences > 0
    ensures raw <= 206.835 - 1.015 * (words as real / sentences as real) < 206.835
  {
    206.835 - 1.015 * (words as real / sentences as real) - 84.6 * (syllables as real / words as real)
  }

  /**
   * `calculateReadability`: no division when there are no words or no
   * sentences, and the formula's value clamped into [0, 100] otherwise.
   */
  function CalculateReadability(wordCount: nat, sentenceCount: nat, syllableCount: nat): (score: real)
    ensures 0.0 <= score <= 100.0
    ensures wordCount == 0 || sentenceCount == 0 ==> score == 0.0
    ensures wordCount > 0 && sentenceCount > 0 ==>
      var raw := FleschReadingEase(wordCount, sentenceCount, syllableCount);
      && (0.0 <= raw <= 100.0 ==> score == raw)
      && (raw > 100.0 ==> score == 100.0)
      && (raw < 0.0 ==> score == 0.0)
  {
    if wordCount == 0 || sentenceCount == 0 then 0.0
    else
      var score := FleschReadingEase(wordCount, sentenceCount, syllableCount);
      Max(0.0, Min(100.0, score))
  }

  /** More syllables for the same words and sentences never make a text read easier. */
  lemma ReadabilityNonIncreasingInSyllables(words: nat, sentences: nat, fewer: nat, more: nat)
    requires fewer <= more
    ensures CalculateReadability(words, sentences, more) <= CalculateReadability(words, sentences, fewer)
  {
    if words > 0 && sentences > 0 {
      var w := words as real;
      assert fewer as real / w <= more as real / w by {
        assert more as real / w - fewer as real / w == (more - fewer) as real / w;
      }
    }
  }

  /** Splitting the same words into more sentences never makes a text read harder. */
  lemma ReadabilityNonDecreasingInSentences(words: nat, fewer: nat, more: nat, syllables: nat)
    requires fewer <= more
    ensures CalculateReadability(words, fewer, syllables) <= CalculateReadability(words, more, syllables)
  {
    if words > 0 && fewer > 0 {
      var w := words as real;
      assert w / more as real <= w / fewer as real by {
        assert w / fewer as real - w / more as real == w * (more - fewer) as real / (fewer as real * more as real);
      }
    }
  }

  // ---------------------------------------------------------------------
  // Readability bands

  /** The seven descriptions, easiest first. */
  const ReadabilityBands: seq<string> := [
    "Very easy to read. Easily understood by an average 11-year-old student.",
    "Easy to read. Conversational English for consumers.",
    "Fairly easy to read.",
    "Plain English. Easily understood by 13- to 15-year-old students.",
    "Fairly difficult to read.",
    "Difficult to read.",
    "Very difficult to read. Best understood by university graduates."]

  /** The lowest score of each band but the last, in the same order. */
  const BandThresholds: seq<real> := [90.0, 80.0, 70.0, 60.0, 50.0, 30.0]

  /** How many of the thresholds from index `i` on lie above the score. */
  function ThresholdsAbove(score: real, i: nat): nat
    requires i <= |BandThresholds|
    decreases |BandThresholds| - i
  {
    if i == |BandThresholds| then 0
    else (if score < BandThresholds[i] then 1 else 0) + ThresholdsAbove(score, i + 1)
  }

  /**
   * The band `getReadabilityDescription` picks: the first threshold the
   * score reaches, tried from the top, or the last band when it reaches
   * none; since the thresholds descend, that is the number of thresholds
   * above the score.
   */
  function ReadabilityBand(score: real): (band: nat)
    ensures band < |ReadabilityBands|
    ensures band < |BandThresholds| ==> score >= BandThresholds[band]
    ensures forall j :: 0 <= j < band ==> score < BandThresholds[j]
    ensures band == ThresholdsAbove(score, 0)
  {
    if score >= 90.0 then 0
    else if score >= 80.0 then 1
    else if score >= 70.0 then 2
    else if score >= 60.0 then 3
    else if score >= 50.0 then 4
    else if score >= 30.0 then 5
    else 6
  }

  /** `getReadabilityDescription`: one of the seven fixed descriptions, that of the score's band. */
  function GetReadabilityDescription(score: real): (d: string)
    ensures d in ReadabilityBands
    ensures forall i :: 0 <= i < |BandThresholds| ==>
      (score >= BandThresholds[i] && (forall j :: 0 <= j < i ==> score < BandThresholds[j]) ==> d == ReadabilityBands[i])
    ensures (forall j :: 0 <= j < |BandThresholds| ==> score < BandThresholds[j]) ==> d == ReadabilityBands[6]
  {
    ReadabilityBands[ReadabilityBand(score)]
  }

  lemma {:induction false} ThresholdsAboveMonotone(lower: real, higher: real, i: nat)
    requires lower <= higher && i <= |BandThresholds|
    ensures ThresholdsAbove(higher, i) <= ThresholdsAbove(lower, i)
    decreases |BandThresholds| - i
  {
    if i < |BandThresholds| {
      ThresholdsAboveMonotone(lower, higher, i + 1);
    }
  }

  /** A higher score never falls in a harder band. */
  lemma DescriptionMonotone(lower: real, higher: real)
    requires lower <= higher
    ensures ReadabilityBand(higher) <= ReadabilityBand(lower)
  {
    ThresholdsAboveMonotone(lower, higher, 0);
  }

  // ---------------------------------------------------------------------
  // Punctuation

  /** The literal character class `[.,/#!$%^&*;:{}=\-_`~()]`. */
  predicate IsStrippedPunctuation(c: char) {
    c in ".,/#!$%^&*;:{}=-_`~()"
  }

  predicate SurvivesPunctuationStrip(c: char) { !IsStrippedPunctuation(c) }

  /** `replace(/[.,/#!$%^&*;:{}=\-_`~()]/g, '')`: the text with exactly those characters deleted. */
  function StripPunctuation(s: string): (r: string)
    ensures forall i :: 0 <= i < |r| ==> !IsStrippedPunctuation(r[i])
    ensures |r| <= |s|
    ensures IsSubsequence(r, s)
    ensures forall c :: multiset(r)[c] == if IsStrippedPunctuation(c) then 0 else multiset(s)[c]
  {
    FilterIsSubsequence(s, SurvivesPunctuationStrip);
    FilterMultiplicity(s, SurvivesPunctuationStrip);
    Filter(s, SurvivesPunctuationStrip)
  }

  /** `processedText`: the input, less the listed punctuation when asked. */
  function ProcessedText(inputText: string, options: AnalysisOptions): (t: string)
    ensures !options.ignorePunctuation ==> t == inputText
    ensures options.ignorePunctuation ==>
      && (forall i :: 0 <= i < |t| ==> !IsStrippedPunctuation(t[i]))
      && IsSubsequence(t, inputText)
      && (forall c :: multiset(t)[c] == if IsStrippedPunctuation(c) then 0 else multiset(inputText)[c])
  {
    if options.ignorePunctuation then StripPunctuation(inputText) else inputText
  }

  // ---------------------------------------------------------------------
  // Language and stopwords

  /** The languages the detector may report. */
  const Candidates: seq<string> := ["eng", "spa", "fra", "deu", "rus", "ita", "por", "nld"]

  /** ISO 639-1 codes of the candidate languages, the keys of the stopword table. */
  const Iso6391: map<string, string> := map[
    "eng" := "en", "spa" := "es", "fra" := "fr", "deu" := "de",
    "rus" := "ru", "ita" := "it", "por" := "pt", "nld" := "nl"]

  /** `lang === 'und' ? 'en' : lang.slice(0, 2)`, as written. */
  function TruncatedLanguageCode(lang: string): (code: string)
    ensures lang == "und" ==> code == "en"
    ensures lang != "und" ==> |code| == (if |lang| < 2 then |lang| else 2) && code <= lang
  {
    if lang == "und" then "en" else lang[..if |lang| < 2 then |lang| else 2]
  }

  /**
   * Truncation names Spanish "sp" and Portuguese "po", which are not their
   * ISO 639-1 codes "es" and "pt", so their stopword lists are never found.
   */
  lemma TruncationMisnamesSpanishAndPortuguese()
    ensures TruncatedLanguageCode("spa") == "sp" && Iso6391["spa"] == "es"
    ensures TruncatedLanguageCode("por") == "po" && Iso6391["por"] == "pt"
  {
  }

  /** The two-letter code the detector's answer stands for; "und" falls back to English. */
  function LanguageCode(lang: string): (code: string)
    ensures lang == "und" ==> code == "en"
    ensures lang in Iso6391 ==> code == Iso6391[lang]
  {
    if lang == "spa" then "es"
    else if lang == "por" then "pt"
    else TruncatedLanguageCode(lang)
  }

  /** The correction changes only the two codes that truncation gets wrong. */
  lemma LanguageCodeAgreesWithTruncation(lang: string)
    requires lang != "spa" && lang != "por"
    ensures LanguageCode(lang) == TruncatedLanguageCode(lang)
  {
  }

  /** Every answer the detector can give leads to the code of a candidate language. */
  lemma LanguageCodeOfDetection(lang: string)
    requires lang in Candidates || lang == "und"
    ensures LanguageCode(lang) in Iso6391.Values
  {
    if lang == "und" {
      assert Iso6391["eng"] == "en";
    } else {
      assert lang in Iso6391;
    }
  }

  /** `new Set(stopwords[langCode] || [])`. */
  function StopwordSet(table: map<string, set<string>>, code: string): (stop: set<string>)
    ensures code !in table ==> stop == {}
    ensures code in table ==> stop == table[code]
  {
    if code in table then table[code] else {}
  }

  // ---------------------------------------------------------------------
  // Words

  /**
   * `text.trim().split(/\s+/).filter(Boolean)`: the maximal runs of
   * non-whitespace characters, in order, none empty, as many as the text
   * has runs, spelling together exactly the text's non-whitespace characters.
   */
  function Tokenize(text: string): (words: seq<string>)
    ensures words == Runs(text)
    ensures forall i :: 0 <= i < |words| ==> IsNonEmpty(words[i]) && HasNoWhitespace(words[i])
    ensures |words| == RunCount(text)
    ensures Concat(words) == Filter(text, IsNotWhitespace)
  {
    var fields := Split(Trim(text));
    SplitFieldsAreRuns(Trim(text));
    RunsTrim(text);
    SplitCountsRuns(Trim(text));
    RunCountTrim(text);
    ConcatOfNonEmpty(fields);
    TrimKeepsNonWhitespace(text);
    Filter(fields, IsNonEmpty)
  }

  /** Tokenizing words joined by single spaces gives the words back. */
  lemma TokenizeOfJoin(words: seq<string>)
    requires forall i :: 0 <= i < |words| ==> |words[i]| > 0 && HasNoWhitespace(words[i])
    ensures Tokenize(JoinWithSpaces(words)) == words
  {
    if |words| > 0 {
      var text := JoinWithSpaces(words);
      JoinEnds(words);
      var last := words[|words| - 1];
      assert HasNoWhitespace(words[0]) && HasNoWhitespace(last) && |last| > 0;
      TrimOfTrimmed(text);
      SplitOfJoin(words);
      FilterKeepsAll(words, IsNonEmpty);
    }
  }

  /** `words.filter(word => !stopwordSet.has(word.toLowerCase()))`. */
  function RemoveStopwords(words: seq<string>, stop: set<string>, toLowerCase: string -> string): (kept: seq<string>)
    ensures |kept| <= |words|
    ensures forall i :: 0 <= i < |kept| ==> toLowerCase(kept[i]) !in stop && kept[i] in words
    ensures IsSubsequence(kept, words)
    ensures forall w :: multiset(kept)[w] == if toLowerCase(w) in stop then 0 else multiset(words)[w]
  {
    var keep := (w: string) => toLowerCase(w) !in stop;
    FilterIsSubsequence(words, keep);
    FilterMultiplicity(words, keep);
    Filter(words, keep)
  }

  /**
   * The word list every metric is computed from: the tokens of the
   * processed text, less, when asked, the stopwords the table lists under
   * the key `langCode` makes of the detected language. `analyzeText`
   * passes `TruncatedLanguageCode`; `LanguageCode` gives the corrected list.
   */
  function FilteredWords(inputText: string, options: AnalysisOptions, env: Collaborators, langCode: string -> string): (words: seq<string>)
    ensures IsSubsequence(words, Tokenize(ProcessedText(inputText, options)))
    ensures |words| <= RunCount(ProcessedText(inputText, options))
    ensures !options.ignoreStopwords ==> words == Tokenize(ProcessedText(inputText, options))
    ensures options.ignoreStopwords ==>
      words == RemoveStopwords(Tokenize(ProcessedText(inputText, options)),
                               StopwordSet(env.stopwords, langCode(env.detect(inputText))), env.toLowerCase)
    ensures forall i :: 0 <= i < |words| ==> IsNonEmpty(words[i]) && HasNoWhitespace(words[i])
  {
    var tokens := Tokenize(ProcessedText(inputText, options));
    if options.ignoreStopwords then
      var stop := StopwordSet(env.stopwords, langCode(env.detect(inputText)));
      var kept := RemoveStopwords(tokens, stop, env.toLowerCase);
      KeptTokensAreWords(tokens, kept);
      kept
    else
      SubsequenceOfItself(tokens);
      tokens
  }

  /** Every element of `kept` is one of the tokens, so it is a word too. */
  lemma KeptTokensAreWords(tokens: seq<string>, kept: seq<string>)
    requires forall i :: 0 <= i < |tokens| ==> IsNonEmpty(tokens[i]) && HasNoWhitespace(tokens[i])
    requires forall i :: 0 <= i < |kept| ==> kept[i] in tokens
    ensures forall i :: 0 <= i < |kept| ==> IsNonEmpty(kept[i]) && HasNoWhitespace(kept[i])
  {
    forall i | 0 <= i < |kept| ensures IsNonEmpty(kept[i]) && HasNoWhitespace(kept[i]) {
      var j :| 0 <= j < |tokens| && tokens[j] == kept[i];
    }
  }

  /** A language with no list in the table removes no word: `|| []` gives an empty set. */
  lemma MissingListRemovesNothing(words: seq<string>, table: map<string, set<string>>, code: string, toLowerCase: string -> string)
    requires code !in table
    ensures RemoveStopwords(words, StopwordSet(table, code), toLowerCase) == words
  {
    var kept := RemoveStopwords(words, StopwordSet(table, code), toLowerCase);
    assert multiset(kept) == multiset(words);
    SubsequenceOfSameSize(kept, words);
  }

  /** A subsequence as long as the sequence it came from is that sequence. */
  lemma {:induction false} SubsequenceOfSameSize<T>(a: seq<T>, b: seq<T>)
    requires IsSubsequence(a, b) && |a| == |b|
    ensures a == b
    decreases |b|
  {
    if |b| > 0 {
      if a[0] == b[0] {
        SubsequenceOfSameSize(a[1..], b[1..]);
      } else {
        SubsequenceNoLonger(a, b[1..]);
      }
    }
  }

  lemma {:induction false} SubsequenceNoLonger<T>(a: seq<T>, b: seq<T>)
    requires IsSubsequence(a, b)
    ensures |a| <= |b|
    decreases |b|
  {
    if |a| > 0 {
      if a[0] == b[0] {
        SubsequenceNoLonger(a[1..], b[1..]);
      } else {
        SubsequenceNoLonger(a, b[1..]);
      }
    }
  }

  /**
   * Whenever the key a code mapping makes of the detected language has no
   * list in the table, ignoring stopwords keeps every token.
   */
  lemma MissingListKeepsEveryToken(inputText: string, options: AnalysisOptions, env: Collaborators, langCode: string -> string)
    requires langCode(env.detect(inputText)) !in env.stopwords
    ensures FilteredWords(inputText, options, env, langCode) == Tokenize(ProcessedText(inputText, options))
  {
    if options.ignoreStopwords {
      MissingListRemovesNothing(Tokenize(ProcessedText(inputText, options)), env.stopwords,
                                langCode(env.detect(inputText)), env.toLowerCase);
    }
  }

  /**
   * Under the code as written, a text detected as Spanish or Portuguese
   * keeps all its tokens, stopwords included, since the table has no
   * `sp` or `po` list.
   */
  lemma SpanishAndPortugueseKeepEveryToken(inputText: string, options: AnalysisOptions, env: Collaborators)
    requires env.detect(inputText) == "spa" || env.detect(inputText) == "por"
    requires "sp" !in env.stopwords && "po" !in env.stopwords
    ensures FilteredWords(inputText, options, env, TruncatedLanguageCode) == Tokenize(ProcessedText(inputText, options))
  {
    TruncationMisnamesSpanishAndPortuguese();
    MissingListKeepsEveryToken(inputText, options, env, TruncatedLanguageCode);
  }

  /** The corrected key changes the filtered words only for a text detected as Spanish or Portuguese. */
  lemma CorrectionChangesOnlySpanishAndPortuguese(inputText: string, options: AnalysisOptions, env: Collaborators)
    requires env.detect(inputText) != "spa" && env.detect(inputText) != "por"
    ensures FilteredWords(inputText, options, env, TruncatedLanguageCode) == FilteredWords(inputText, options, env, LanguageCode)
  {
    LanguageCodeAgreesWithTruncation(env.detect(inputText));
  }

  /**
   * A Spanish text keeps its stopwords as written: "el" is looked up under
   * "sp", finds no list, and stays; under the corrected key "es" it goes.
   */
  lemma SpanishStopwordKept(inputText: string, options: AnalysisOptions, env: Collaborators)
    requires inputText == "el" && env.detect(inputText) == "spa"
    requires env.stopwords == map["es" := {"el"}] && env.toLowerCase("el") == "el"
    requires options.ignoreStopwords && !options.ignorePunctuation
    ensures FilteredWords(inputText, options, env, TruncatedLanguageCode) == ["el"]
    ensures FilteredWords(inputText, options, env, LanguageCode) == []
  {
    assert JoinWithSpaces(["el"]) == inputText;
    assert HasNoWhitespace("el");
    TokenizeOfJoin(["el"]);
    TruncationMisnamesSpanishAndPortuguese();
    assert "sp" !in env.stopwords;
  }

  lemma {:induction false} SubsequenceOfItself<T>(s: seq<T>)
    ensures IsSubsequence(s, s)
    decreases |s|
  {
    if |s| > 0 {
      SubsequenceOfItself(s[1..]);
    }
  }

  // ---------------------------------------------------------------------
  // Sentences

  predicate IsTerminator(c: char) { c == '.' || c == '!' || c == '?' }
  predicate IsNotTerminator(c: char) { !IsTerminator(c) }

  /**
   * `text.match(/[^.!?]+[.!?]+/g)`, with no match as the empty sequence:
   * each match is a run of other characters followed by the whole run of
   * terminators after it; other characters with no terminator after them
   * are not part of any match.
   */
  function SentenceMatches(s: string): (ms: seq<string>)
    ensures forall i :: 0 <= i < |ms| ==> IsSentenceMatch(ms[i])
    decreases |s|
  {
    if |s| == 0 then []
    else if IsTerminator(s[0]) then SentenceMatches(s[1..])
    else
      var j := PrefixLength(s, IsNotTerminator);
      if j == |s| then []
      else
        var k := j + PrefixLength(s[j..], IsTerminator);
        MatchShape(s, j, k);
        [s[..k]] + SentenceMatches(s[k..])
  }

  predicate NoTerminators(s: string) { forall i :: 0 <= i < |s| ==> !IsTerminator(s[i]) }
  predicate AllTerminators(s: string) { forall i :: 0 <= i < |s| ==> IsTerminator(s[i]) }

  /** Some other characters, then a run of terminators that ends the match. */
  predicate IsSentenceMatch(m: string) {
    exists p :: 0 < p < |m| && NoTerminators(m[..p]) && AllTerminators(m[p..])
  }

  lemma MatchShape(s: string, j: nat, k: nat)
    requires 0 < |s| && !IsTerminator(s[0])
    requires j == PrefixLength(s, IsNotTerminator) < |s|
    requires k == j + PrefixLength(s[j..], IsTerminator)
    ensures j < k <= |s| && IsSentenceMatch(s[..k])
  {
    var u := s[j..];
    var t := PrefixLength(u, IsTerminator);
    assert IsTerminator(u[0]);
    TextRunHasNoTerminator(s);
    TerminatorRunIsAllTerminators(u);
    SentenceShape(s, j, t);
  }

  /** Cutting `s` after a text run of length `j` and the `t` terminators following it gives a match. */
  lemma SentenceShape(s: string, j: nat, t: nat)
    requires 0 < j && 0 < t && j + t <= |s|
    requires NoTerminators(s[..j]) && AllTerminators(s[j..][..t])
    ensures IsSentenceMatch(s[..j + t])
  {
    var m := s[..j + t];
    assert m[..j] == s[..j];
    assert m[j..] == s[j..][..t];
  }

  lemma TextRunHasNoTerminator(s: string)
    ensures NoTerminators(s[..PrefixLength(s, IsNotTerminator)])
  {
    var n := PrefixLength(s, IsNotTerminator);
    forall i | 0 <= i < n ensures !IsTerminator(s[..n][i]) {
      assert s[..n][i] == s[i];
    }
  }

  lemma TerminatorRunIsAllTerminators(s: string)
    ensures AllTerminators(s[..PrefixLength(s, IsTerminator)])
  {
    var n := PrefixLength(s, IsTerminator);
    forall i | 0 <= i < n ensures IsTerminator(s[..n][i]) {
      assert s[..n][i] == s[i];
    }
  }

  /**
   * Number of terminators that directly follow another character:
   * an independent count of the sentences the regular expression finds.
   */
  function TerminatorsAfterText(s: string, afterText: bool): nat
  {
    if |s| == 0 then 0
    else (if afterText && IsTerminator(s[0]) then 1 else 0) + TerminatorsAfterText(s[1..], !IsTerminator(s[0]))
  }

  lemma {:induction false} SkipText(s: string, afterText: bool, j: nat)
    requires 1 <= j <= |s|
    requires forall i :: 0 <= i < j ==> !IsTerminator(s[i])
    ensures TerminatorsAfterText(s, afterText) == TerminatorsAfterText(s[j..], true)
    decreases j
  {
    if j > 1 {
      SkipText(s[1..], true, j - 1);
      assert s[1..][j - 1..] == s[j..];
    }
  }

  lemma {:induction false} SkipTerminators(s: string, afterText: bool, j: nat)
    requires 1 <= j <= |s|
    requires forall i :: 0 <= i < j ==> IsTerminator(s[i])
    ensures TerminatorsAfterText(s, afterText) == (if afterText then 1 else 0) + TerminatorsAfterText(s[j..], false)
    decreases j
  {
    if j > 1 {
      SkipTerminators(s[1..], false, j - 1);
      assert s[1..][j - 1..] == s[j..];
    }
  }

  /** The regular expression matches once per terminator run that follows other text. */
  lemma {:induction false} SentenceMatchesCount(s: string)
    ensures |SentenceMatches(s)| == TerminatorsAfterText(s, false)
    decreases |s|
  {
    if |s| > 0 {
      if IsTerminator(s[0]) {
        SentenceMatchesCount(s[1..]);
      } else {
        var j := PrefixLength(s, IsNotTerminator);
        SkipText(s, false, j);
        if j < |s| {
          var t := PrefixLength(s[j..], IsTerminator);
          var k := j + t;
          SkipTerminators(s[j..], true, t);
          assert s[j..][t..] == s[k..];
          SentenceMatchesCount(s[k..]);
        }
      }
    }
  }

  /** Terminator runs of a concatenation: those of each part, the second part seen from where the first ends. */
  lemma {:induction false} TerminatorsAfterTextConcat(a: string, b: string, afterText: bool)
    requires |a| > 0
    ensures TerminatorsAfterText(a + b, afterText)
      == TerminatorsAfterText(a, afterText) + TerminatorsAfterText(b, !IsTerminator(a[|a| - 1]))
    decreases |a|
  {
    assert (a + b)[0] == a[0];
    assert (a + b)[1..] == a[1..] + b;
    if |a| > 1 {
      TerminatorsAfterTextConcat(a[1..], b, !IsTerminator(a[0]));
    }
  }

  /** Text ending in its only terminator holds one terminator run. */
  lemma TerminatorsOfOneSentence(s: string, afterText: bool)
    requires |s| >= 2 && IsTerminator(s[|s| - 1])
    requires forall i :: 0 <= i < |s| - 1 ==> !IsTerminator(s[i])
    ensures TerminatorsAfterText(s, afterText) == 1
  {
    SkipText(s, afterText, |s| - 1);
  }

  /** `sentences`: the matches, or else the whole text when it is not empty. */
  function Sentences(s: string): (ss: seq<string>)
    ensures s == "" ==> ss == []
    ensures TerminatorsAfterText(s, false) > 0 ==> ss == SentenceMatches(s)
    ensures s != "" && TerminatorsAfterText(s, false) == 0 ==> ss == [s]
  {
    SentenceMatchesCount(s);
    var ms := SentenceMatches(s);
    if |ms| > 0 then ms else if s != "" then [s] else []
  }

  /** The sentence count: zero only for the empty text, and at least one terminator run otherwise. */
  function SentenceCount(s: string): (n: nat)
    ensures n == 0 <==> s == ""
    ensures s != "" ==> n == if TerminatorsAfterText(s, false) > 0 then TerminatorsAfterText(s, false) else 1
  {
    SentenceMatchesCount(s);
    |Sentences(s)|
  }

  // ---------------------------------------------------------------------
  // Characters, reading time, syllables

  /** `charCount`: the length of the original text, whitespace removed unless counted. */
  function CharCount(text: string, includeSpaces: bool): (n: nat)
    ensures includeSpaces ==> n == |text|
    ensures !includeSpaces ==> n + |Filter(text, IsWhitespace)| == |text|
  {
    WhitespacePartition(text);
    if includeSpaces then |text| else |Filter(text, IsNotWhitespace)|
  }

  lemma {:induction false} WhitespacePartition(s: string)
    ensures |Filter(s, IsNotWhitespace)| + |Filter(s, IsWhitespace)| == |s|
    decreases |s|
  {
    if |s| > 0 {
      WhitespacePartition(s[1..]);
    }
  }

  /** Leaving spaces out never increases the character count. */
  lemma CharCountWithoutSpacesNeverLarger(text: string)
    ensures CharCount(text, false) <= CharCount(text, true)
  {
  }

  /** `Math.ceil(wordCount / 200)`: whole minutes at 200 words a minute. */
  function ReadingTime(wordCount: nat): (minutes: nat)
    ensures minutes * 200 >= wordCount
    ensures minutes > 0 ==> (minutes - 1) * 200 < wordCount
    ensures minutes == 0 <==> wordCount == 0
  {
    (wordCount + 199) / 200
  }

  /** `filteredWords.reduce((acc, word) => acc + syllable(word), 0)`. */
  function SyllableCount(words: seq<string>, syllable: string -> nat): (n: nat)
    ensures |words| == 0 ==> n == 0
    ensures forall i :: 0 <= i < |words| ==> syllable(words[i]) <= n
    ensures (forall i :: 0 <= i < |words| ==> syllable(words[i]) > 0) ==> n >= |words|
  {
    if |words| == 0 then 0 else syllable(words[0]) + SyllableCount(words[1..], syllable)
  }

  /** The syllable total of two word lists one after the other is the sum of their totals. */
  lemma {:induction false} SyllableCountAppend(a: seq<string>, b: seq<string>, syllable: string -> nat)
    ensures SyllableCount(a + b, syllable) == SyllableCount(a, syllable) + SyllableCount(b, syllable)
    decreases |a|
  {
    if |a| == 0 {
      assert a + b == b;
    } else {
      assert (a + b)[0] == a[0];
      assert (a + b)[1..] == a[1..] + b;
      SyllableCountAppend(a[1..], b, syllable);
    }
  }

  /** One word contributes exactly its own syllables. */
  lemma SyllableCountOfOne(w: string, syllable: string -> nat)
    ensures SyllableCount([w], syllable) == syllable(w)
  {
    assert [w][1..] == [];
  }

  /** Dropping words never raises the syllable total. */
  lemma {:induction false} SyllableCountOfSubsequence(a: seq<string>, b: seq<string>, syllable: string -> nat)
    requires IsSubsequence(a, b)
    ensures SyllableCount(a, syllable) <= SyllableCount(b, syllable)
    decreases |b|
  {
    if |a| > 0 && |b| > 0 {
      if a[0] == b[0] {
        SyllableCountOfSubsequence(a[1..], b[1..], syllable);
      } else {
        SyllableCountOfSubsequence(a, b[1..], syllable);
      }
    }
  }

  /** Ignoring stopwords never increases the word count or the syllable count. */
  lemma IgnoringStopwordsNeverIncreases(inputText: string, options: AnalysisOptions, env: Collaborators, langCode: string -> string)
    ensures var with := FilteredWords(inputText, options.(ignoreStopwords := true), env, langCode);
            var without := FilteredWords(inputText, options.(ignoreStopwords := false), env, langCode);
            |with| <= |without| && SyllableCount(with, env.syllables) <= SyllableCount(without, env.syllables)
  {
    var with := FilteredWords(inputText, options.(ignoreStopwords := true), env, langCode);
    var without := FilteredWords(inputText, options.(ignoreStopwords := false), env, langCode);
    assert ProcessedText(inputText, options.(ignoreStopwords := true)) == ProcessedText(inputText, options.(ignoreStopwords := false));
    SyllableCountOfSubsequence(with, without, env.syllables);
  }

  // ---------------------------------------------------------------------
  // Word-length distribution

  /** How many of `words` have exactly `len` characters. */
  function LengthCount(words: seq<string>, len: nat): nat
  {
    if |words| == 0 then 0
    else LengthCount(words[..|words| - 1], len) + (if |words[|words| - 1]| == len then 1 else 0)
  }

  /**
   * The `reduce` that fills `wordLengthDistribution`: one key per length
   * that occurs (zero excluded), mapped to the number of words of that length.
   */
  method WordLengthDistribution(words: seq<string>) returns (acc: map<nat, nat>)
    ensures forall len :: len in acc <==> len > 0 && LengthCount(words, len) > 0
    ensures forall len :: len in acc ==> acc[len] == LengthCount(words, len)
  {
    acc := map[];
    for i := 0 to |words|
      invariant forall len :: len in acc <==> len > 0 && LengthCount(words[..i], len) > 0
      invariant forall len :: len in acc ==> acc[len] == LengthCount(words[..i], len)
    {
      assert words[..i + 1][..i] == words[..i];
      var len := |words[i]|;
      if len > 0 {
        acc := acc[len := (if len in acc then acc[len] else 0) + 1];
      }
    }
    assert words[..|words|] == words;
  }

  predicate IsStrictlyAscending(chart: seq<ChartEntry>) {
    forall i, j :: 0 <= i < j < |chart| ==> chart[i].length < chart[j].length
  }

  function Lengths(chart: seq<ChartEntry>): set<nat> {
    set i | 0 <= i < |chart| :: chart[i].length
  }

  /** The least element of a non-empty set of lengths: the entry the sort places next. */
  method Minimum(s: set<nat>) returns (m: nat)
    requires s != {}
    ensures m in s && forall k :: k in s ==> m <= k
    decreases s
  {
    var x :| x in s;
    if s == {x} {
      m := x;
    } else {
      var rest := Minimum(s - {x});
      m := if x < rest then x else rest;
      forall k | k in s ensures m <= k {
        if k != x {
          assert k in s - {x};
        }
      }
    }
  }

  /**
   * `Object.entries(...).map(...).sort((a, b) => a.length - b.length)`:
   * every entry of the distribution once, in ascending order of length.
   */
  method ChartData(acc: map<nat, nat>) returns (chart: seq<ChartEntry>)
    ensures IsStrictlyAscending(chart)
    ensures Lengths(chart) == acc.Keys
    ensures forall i :: 0 <= i < |chart| ==> chart[i].length in acc && chart[i].count == acc[chart[i].length]
  {
    chart := [];
    var rest := acc.Keys;
    while rest != {}
      invariant Lengths(chart) + rest == acc.Keys
      invariant IsStrictlyAscending(chart)
      invariant forall i, k :: 0 <= i < |chart| && k in rest ==> chart[i].length < k
      invariant forall i :: 0 <= i < |chart| ==> chart[i].length in acc && chart[i].count == acc[chart[i].length]
      decreases rest
    {
      var k := Minimum(rest);
      var entry := ChartEntry(k, acc[k]);
      LengthsAppend(chart, entry);
      AppendAscending(chart, entry);
      var next := chart + [entry];
      assert forall i :: 0 <= i < |chart| ==> next[i] == chart[i];
      assert next[|chart|] == entry;
      assert forall k' :: k' in rest - {k} ==> k < k';
      chart, rest := next, rest - {k};
    }
  }

  lemma AppendAscending(chart: seq<ChartEntry>, e: ChartEntry)
    requires IsStrictlyAscending(chart)
    requires forall i :: 0 <= i < |chart| ==> chart[i].length < e.length
    ensures IsStrictlyAscending(chart + [e])
  {
    var next := chart + [e];
    forall i, j | 0 <= i < j < |next| ensures next[i].length < next[j].length {
      assert next[i] == chart[i];
      if j < |chart| {
        assert next[j] == chart[j];
      }
    }
  }

  lemma LengthsAppend(chart: seq<ChartEntry>, e: ChartEntry)
    ensures Lengths(chart + [e]) == Lengths(chart) + {e.length}
  {
    var next := chart + [e];
    assert forall i :: 0 <= i < |chart| ==> next[i] == chart[i];
    assert next[|chart|] == e;
  }

  function SumCounts(chart: seq<ChartEntry>): nat {
    if |chart| == 0 then 0 else chart[0].count + SumCounts(chart[1..])
  }

  /** How many of `words` have a length in `lengths`. */
  function CountWithLengthIn(words: seq<string>, lengths: set<nat>): nat
  {
    if |words| == 0 then 0
    else CountWithLengthIn(words[..|words| - 1], lengths) + (if |words[|words| - 1]| in lengths then 1 else 0)
  }

  lemma {:induction false} CountWithLengthInAddOne(words: seq<string>, lengths: set<nat>, k: nat)
    requires k !in lengths
    ensures CountWithLengthIn(words, lengths + {k}) == CountWithLengthIn(words, lengths) + LengthCount(words, k)
    decreases |words|
  {
    if |words| > 0 {
      CountWithLengthInAddOne(words[..|words| - 1], lengths, k);
    }
  }

  lemma {:induction false} CountWithAllLengths(words: seq<string>, lengths: set<nat>)
    requires forall i :: 0 <= i < |words| ==> |words[i]| in lengths
    ensures CountWithLengthIn(words, lengths) == |words|
    decreases |words|
  {
    if |words| > 0 {
      CountWithAllLengths(words[..|words| - 1], lengths);
    }
  }

  lemma {:induction false} SumCountsByLength(words: seq<string>, chart: seq<ChartEntry>)
    requires IsStrictlyAscending(chart)
    requires forall i :: 0 <= i < |chart| ==> chart[i].count == LengthCount(words, chart[i].length)
    ensures SumCounts(chart) == CountWithLengthIn(words, Lengths(chart))
    decreases |chart|
  {
    if |chart| == 0 {
      assert Lengths(chart) == {};
      CountWithNoLengths(words);
    } else {
      var tail := chart[1..];
      SumCountsByLength(words, tail);
      assert Lengths(chart) == Lengths(tail) + {chart[0].length} by {
        assert forall i :: 0 <= i < |tail| ==> tail[i] == chart[i + 1];
        assert forall i :: 1 <= i < |chart| ==> chart[i] == tail[i - 1];
      }
      assert chart[0].length !in Lengths(tail);
      CountWithLengthInAddOne(words, Lengths(tail), chart[0].length);
    }
  }

  lemma {:induction false} CountWithNoLengths(words: seq<string>)
    ensures CountWithLengthIn(words, {}) == 0
    decreases |words|
  {
    if |words| > 0 {
      CountWithNoLengths(words[..|words| - 1]);
    }
  }

  /** The chart counts add up to the number of words when no word is empty. */
  lemma ChartSumsToWordCount(words: seq<string>, chart: seq<ChartEntry>)
    requires forall i :: 0 <= i < |words| ==> |words[i]| > 0
    requires IsStrictlyAscending(chart)
    requires forall i :: 0 <= i < |chart| ==> chart[i].count == LengthCount(words, chart[i].length)
    requires forall i :: 0 <= i < |words| ==> |words[i]| in Lengths(chart)
    ensures SumCounts(chart) == |words|
  {
    SumCountsByLength(words, chart);
    CountWithAllLengths(words, Lengths(chart));
  }

  lemma {:induction false} LengthCountPositive(words: seq<string>, i: nat)
    requires i < |words|
    ensures LengthCount(words, |words[i]|) > 0
    decreases |words|
  {
    if i < |words| - 1 {
      LengthCountPositive(words[..|words| - 1], i);
    }
  }

  /**
   * What `chartData` is for `words`: strictly ascending by length, one
   * entry per positive length with its number of words, covering every
   * word's length, with counts that add up to the number of words.
   */
  predicate ChartDescribes(chart: seq<ChartEntry>, words: seq<string>) {
    && IsStrictlyAscending(chart)
    && (forall i :: 0 <= i < |chart| ==> chart[i].length > 0 && chart[i].count == LengthCount(words, chart[i].length))
    && Lengths(chart) == (set w | w in words :: |w|)
    && SumCounts(chart) == |words|
  }

  /** Some word has every length the histogram counts. */
  lemma {:induction false} LengthCountWitness(words: seq<string>, len: nat)
    requires LengthCount(words, len) > 0
    ensures exists w :: w in words && |w| == len
    decreases |words|
  {
    var last := words[|words| - 1];
    if |last| != len {
      LengthCountWitness(words[..|words| - 1], len);
      var w :| w in words[..|words| - 1] && |w| == len;
      assert w in words;
    }
  }

  /** No words, no chart entries. */
  lemma EmptyChart(chart: seq<ChartEntry>)
    requires ChartDescribes(chart, [])
    ensures chart == []
  {
    assert |chart| > 0 ==> chart[0].length in Lengths(chart);
  }

  /** Lines 72-83 of `analyzeText` together: the histogram, then its sorted entries. */
  method WordLengthChart(words: seq<string>) returns (chart: seq<ChartEntry>)
    requires forall i :: 0 <= i < |words| ==> |words[i]| > 0
    ensures ChartDescribes(chart, words)
  {
    var distribution := WordLengthDistribution(words);
    chart := ChartData(distribution);
    forall i | 0 <= i < |words| ensures |words[i]| in Lengths(chart) {
      LengthCountPositive(words, i);
    }
    forall len | len in Lengths(chart) ensures exists w :: w in words && |w| == len {
      LengthCountWitness(words, len);
    }
    ChartSumsToWordCount(words, chart);
  }

  // ---------------------------------------------------------------------
  // Highlighted words

  /** Both optional bounds hold; an absent (NaN) bound holds of every word. */
  predicate WithinBounds(word: string, min: Option<int>, max: Option<int>) {
    (min.Some? ==> |word| >= min.value) && (max.Some? ==> |word| <= max.value)
  }

  /**
   * `new Set(filteredWords.filter(...))`: the distinct words whose length
   * meets the parsed bounds.
   */
  function HighlightedWords(words: seq<string>, options: AnalysisOptions): (hs: set<string>)
    ensures forall w :: w in hs <==> w in words && WithinBounds(w, ParseInt(options.minWordLength), ParseInt(options.maxWordLength))
  {
    var min := ParseInt(options.minWordLength);
    var max := ParseInt(options.maxWordLength);
    var inBounds := (w: string) => WithinBounds(w, min, max);
    var kept := Filter(words, inBounds);
    FilterMultiplicity(words, inBounds);
    var hs := set w | w in kept;
    forall w ensures w in hs <==> w in words && inBounds(w) {
      assert w in kept <==> multiset(kept)[w] > 0;
      assert w in words <==> multiset(words)[w] > 0;
    }
    hs
  }

  /** With neither bound a number, every word is highlighted. */
  lemma HighlightAllWhenUnbounded(words: seq<string>, options: AnalysisOptions)
    requires ParseInt(options.minWordLength).None? && ParseInt(options.maxWordLength).None?
    ensures HighlightedWords(words, options) == set w | w in words
  {
  }

  // ---------------------------------------------------------------------
  // The analysis

  /** `analyzeText`. */
  method AnalyzeText(inputText: string, options: AnalysisOptions, env: Collaborators) returns (result: AnalysisResult)
    ensures result.wordCount == |FilteredWords(inputText, options, env, TruncatedLanguageCode)|
    ensures result.wordCount <= RunCount(ProcessedText(inputText, options))
    ensures !options.ignoreStopwords ==> result.wordCount == RunCount(ProcessedText(inputText, options))
    ensures result.charCount == CharCount(inputText, options.includeSpaces)
    ensures result.readingTime == ReadingTime(result.wordCount)
    ensures result.syllableCount == SyllableCount(FilteredWords(inputText, options, env, TruncatedLanguageCode), env.syllables)
    ensures result.readabilityScore == CalculateReadability(result.wordCount, SentenceCount(inputText), result.syllableCount)
    ensures 0.0 <= result.readabilityScore <= 100.0
    ensures result.wordCount == 0 ==> result.readingTime == 0 && result.readabilityScore == 0.0
    ensures ChartDescribes(result.chartData, FilteredWords(inputText, options, env, TruncatedLanguageCode))
    ensures result.highlightedWords == HighlightedWords(FilteredWords(inputText, options, env, TruncatedLanguageCode), options)
  {
    var words := FilteredWords(inputText, options, env, TruncatedLanguageCode);
    var wordCount := |words|;
    var charCount := CharCount(inputText, options.includeSpaces);
    var readingTime := ReadingTime(wordCount);
    var syllableCount := SyllableCount(words, env.syllables);
    var readabilityScore := CalculateReadability(wordCount, SentenceCount(inputText), syllableCount);
    var chartData := WordLengthChart(words);
    result := AnalysisResult(wordCount, charCount, readingTime, syllableCount, readabilityScore,
                             chartData, HighlightedWords(words, options));
  }

  /** The empty text analyses to all zeros, whatever the options. */
  lemma EmptyTextAnalysis(options: AnalysisOptions, env: Collaborators)
    ensures FilteredWords("", options, env, TruncatedLanguageCode) == []
    ensures CharCount("", options.includeSpaces) == 0
    ensures SentenceCount("") == 0
    ensures ReadingTime(0) == 0 && CalculateReadability(0, 0, 0) == 0.0
    ensures HighlightedWords([], options) == {}
  {
    assert RunCount(ProcessedText("", options)) == 0;
  }

  // ---------------------------------------------------------------------
  // Worked examples

  /** Two terminated sentences count as two. */
  lemma TwoSentenceExample(text: string)
    requires text == "Hello world. Hello there!"
    ensures SentenceCount(text) == 2
  {
    ExampleIsTwoSentencesJoined(text);
    ExampleTerminatorRuns();
  }

  lemma ExampleIsTwoSentencesJoined(text: string)
    requires text == "Hello world. Hello there!"
    ensures "Hello world." + " Hello there!" == text
  {
  }

  lemma ExampleTerminatorRuns()
    ensures TerminatorsAfterText("Hello world." + " Hello there!", false) == 2
  {
    TerminatorsOfOneSentence("Hello world.", false);
    TerminatorsOfOneSentence(" Hello there!", false);
    TerminatorsAfterTextConcat("Hello world.", " Hello there!", false);
  }

  lemma ParseIntOfFive()
    ensures ParseInt("5") == Some(5)
  {
    assert Decimal(5) == "5";
    ParseIntOfDecimal(5);
  }

  /** With only a minimum that parses, the highlighted words are the words at least that long. */
  lemma HighlightWithMinimumOnly(words: seq<string>, options: AnalysisOptions, m: int)
    requires ParseInt(options.minWordLength) == Some(m) && ParseInt(options.maxWordLength) == None
    ensures HighlightedWords(words, options) == set w | w in words && |w| >= m
  {
  }

  lemma LongWordsOfExample(words: seq<string>)
    requires words == ["cat", "dog", "elephant"]
    ensures (set w | w in words && |w| >= 5) == {"elephant"}
  {
    forall w ensures w in words && |w| >= 5 <==> w == "elephant" {
      assert w in words <==> w == words[0] || w == words[1] || w == words[2];
    }
  }

  /** A minimum of "5" and an empty maximum keep only the long word of "cat dog elephant". */
  lemma HighlightExample(text: string, options: AnalysisOptions, env: Collaborators)
    requires text == "cat dog elephant"
    requires options.minWordLength == "5" && options.maxWordLength == ""
    requires !options.ignorePunctuation && !options.ignoreStopwords
    ensures HighlightedWords(FilteredWords(text, options, env, TruncatedLanguageCode), options) == {"elephant"}
  {
    var words := ExampleWords(text);
    ParseIntOfFive();
    ParseIntOfEmpty();
    HighlightWithMinimumOnly(words, options, 5);
    LongWordsOfExample(words);
  }

  lemma ExampleWords(text: string) returns (words: seq<string>)
    requires text == "cat dog elephant"
    ensures words == ["cat", "dog", "elephant"] && Tokenize(text) == words
  {
    words := ["cat", "dog", "elephant"];
    ExampleIsJoin(text, words);
    ExampleWordsAreWords(words);
    TokenizeOfJoin(words);
  }

  lemma ExampleIsJoin(text: string, words: seq<string>)
    requires text == "cat dog elephant" && words == ["cat", "dog", "elephant"]
    ensures JoinWithSpaces(words) == text
  {
    assert JoinWithSpaces(words[2..]) == "elephant";
    assert JoinWithSpaces(words[1..]) == "dog" + " " + "elephant";
  }

  lemma ExampleWordsAreWords(words: seq<string>)
    requires words == ["cat", "dog", "elephant"]
    ensures forall i :: 0 <= i < |words| ==> |words[i]| > 0 && HasNoWhitespace(words[i])
  {
    assert HasNoWhitespace("cat") && HasNoWhitespace("dog") && HasNoWhitespace("elephant");
  }
}
