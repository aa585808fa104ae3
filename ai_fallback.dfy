/**
 * The server-side writing analysis.  Blank text is answered at once; otherwise the
 * AI provider is asked, and whenever that fails (no response, no content, content
 * that is not JSON) a rule-based fallback runs instead: passive-voice spans,
 * repeated long words, a score that loses five points per suggestion down to 50,
 * and a readability score banded on the average sentence length.
 */
module AiFallback {
  import opened Wrappers
  import opened Text
  import opened Patterns

  datatype SuggestionType = Grammar | Style | Structure | Clarity | Pacing
  datatype Severity = Low | Medium | High

  /** The two messages the fallback writes; the second names the word and how often it occurs. */
  datatype Message = ActiveVoice | Synonyms(word: string, count: nat) | Provided(text: string)

  datatype Suggestion = Suggestion(
    kind: SuggestionType,
    severity: Severity,
    message: Message,
    originalText: string,
    suggestedText: Option<string>,
    startPosition: int,
    endPosition: int)

  datatype AnalysisResult = AnalysisResult(
    suggestions: seq<Suggestion>,
    overallScore: real,
    wordCount: int,
    readabilityScore: Option<real>)

  /** What asking the provider came to: a parsed result, or any of its failures. */
  datatype ProviderOutcome = Parsed(result: AnalysisResult) | Failed

  // ---------------------------------------------------------------------------
  // Passive voice

  const AuxiliaryList := ["was", "were", "is", "are", "been", "being"]

  function Auxiliaries(): seq<string> {
    AuxiliaryList
  }

  /** `\s+\w+<suffix>\b`, the part after the auxiliary. */
  function PassiveTail(suffix: string): Pattern {
    [Plus(SpaceClass, false), Plus(WordClass, false), Lit(suffix), Boundary]
  }

  /** `\b(was|were|is|are|been|being)\s+\w+<suffix>\b` with the flags `g` and `i`. */
  function PassivePattern(suffix: string): Pattern {
    [Boundary, OneOf(Auxiliaries()), Plus(SpaceClass, false), Plus(WordClass, false), Lit(suffix), Boundary]
  }

  lemma PassivePatternAdvances(suffix: string)
    ensures MinLen(PassivePattern(suffix)) > 0
  {
    var p := PassivePattern(suffix);
    assert MinAlt(Auxiliaries()) == 2;
    assert MinLen(p[5..]) == 0;
    assert MinLen(p[4..]) == |suffix|;
    assert MinLen(p[3..]) == 1 + |suffix|;
    assert MinLen(p[2..]) == 2 + |suffix|;
    assert MinLen(p[1..]) == 4 + |suffix|;
  }

  function PassiveOf(s: string, m: Match): Suggestion
    requires m.start <= m.end <= |s|
  {
    Suggestion(Style, Medium, ActiveVoice, s[m.start..m.end], None, m.start, m.end)
  }

  function PassiveFromMatches(s: string, ms: seq<Match>): seq<Suggestion>
    requires ValidMatches(s, ms)
  {
    seq(|ms|, k requires 0 <= k < |ms| => PassiveOf(s, ms[k]))
  }

  /** The suggestions of one passive pattern: one per match of its global scan. */
  function PassiveFor(s: string, suffix: string): seq<Suggestion> {
    PassivePatternAdvances(suffix);
    PassiveFromMatches(s, Scan(s, PassivePattern(suffix), 0))
  }

  /** Both passive patterns in turn: all "-ed" matches, then all "-en" matches. */
  function PassiveSuggestions(s: string): seq<Suggestion> {
    PassiveFor(s, "ed") + PassiveFor(s, "en")
  }

  /** The `while ((match = pattern.exec(text)) !== null)` loop for one pattern. */
  method CollectPassive(text: string, suffix: string) returns (found: seq<Suggestion>)
    ensures found == PassiveFor(text, suffix)
  {
    PassivePatternAdvances(suffix);
    var pattern := PassivePattern(suffix);
    found := [];
    var lastIndex := 0;
    ghost var seen: seq<Match> := [];
    var m := Exec(text, pattern, lastIndex);
    while m.Some?
      invariant lastIndex <= |text|
      invariant m == Exec(text, pattern, lastIndex)
      invariant Scan(text, pattern, 0) == seen + Scan(text, pattern, lastIndex)
      invariant ValidMatches(text, seen) && |found| == |seen|
      invariant forall k :: 0 <= k < |seen| ==> found[k] == PassiveOf(text, seen[k])
      decreases |text| - lastIndex
    {
      var mv := m.value;
      ScanUnfold(text, pattern, lastIndex);
      found := found + [PassiveOf(text, mv)];
      seen := seen + [mv];
      lastIndex := mv.end;
      m := Exec(text, pattern, lastIndex);
    }
    assert Scan(text, pattern, lastIndex) == [];
    assert seen + [] == seen;
  }

  /** The anatomy of a passive match [start, end): a word boundary, one of the auxiliaries,
      whitespace, and a word ending in the suffix (compared case-insensitively) just before a
      boundary. */
  ghost predicate PassiveShaped(s: string, start: nat, end: nat, suffix: string)
    requires start <= end <= |s|
  {
    && BoundaryAt(s, start)
    && (exists a, m :: AuxiliaryThenWord(s, start, a, m, end, suffix))
    && start + 4 + |suffix| <= end
    && LitAt(s, end - |suffix|, suffix)
    && BoundaryAt(s, end)
  }

  /** Auxiliary number `a` at `start`, then whitespace up to `m`, then word characters up to
      the suffix that ends at `end`. */
  predicate AuxiliaryThenWord(s: string, start: nat, a: int, m: nat, end: nat, suffix: string) {
    && 0 <= a < |Auxiliaries()| && LitAt(s, start, Auxiliaries()[a])
    && TwoRuns(s, start + |Auxiliaries()[a]|, m, end, |suffix|, SpaceClass, WordClass)
  }

  lemma PassiveMatchShape(s: string, i: nat, suffix: string, t: Tail)
    requires i <= |s|
    requires MatchAt(s, i, PassivePattern(suffix)) == Some(t)
    ensures PassiveShaped(s, i, t.end, suffix)
  {
    var p := PassivePattern(suffix);
    var tail := PassiveTail(suffix);
    assert p[1..][1..] == tail;
    assert BoundaryAt(s, i) && MatchAt(s, i, p[1..]) == Some(t);
    assert TryAlts(s, i, Auxiliaries(), tail) == Some(t);
    TryAltsSplit(s, i, Auxiliaries(), tail);
    var a :| ExistsAlt(s, i, Auxiliaries(), tail, t.end, a);
    AfterAuxiliary(s, i, a, suffix, t.end);
  }

  lemma AuxiliaryLength(a: int)
    requires 0 <= a < |Auxiliaries()|
    ensures |Auxiliaries()[a]| >= 2
  {
    assert MinAlt(AuxiliaryList) == 2;
    MinAltLe(AuxiliaryList, a);
  }

  /** After the auxiliary `\s+\w+<suffix>\b` matched, ending at `end`. */
  lemma AfterAuxiliary(s: string, i: nat, a: int, suffix: string, end: nat)
    requires i <= |s|
    requires ExistsAlt(s, i, Auxiliaries(), PassiveTail(suffix), end, a)
    requires BoundaryAt(s, i)
    ensures i <= end <= |s|
    ensures PassiveShaped(s, i, end, suffix)
  {
    AuxiliaryLength(a);
    var j1 := i + |Auxiliaries()[a]|;
    RunsThenLit(s, j1, PassiveTail(suffix), suffix, end);
    var m :| TwoRuns(s, j1, m, end, |suffix|, SpaceClass, WordClass);
    ShapedFromParts(s, i, a, m, suffix, end);
  }

  lemma ShapedFromParts(s: string, i: nat, a: int, m: nat, suffix: string, end: nat)
    requires i <= end <= |s|
    requires 0 <= a < |Auxiliaries()| && |Auxiliaries()[a]| >= 2 && LitAt(s, i, Auxiliaries()[a])
    requires BoundaryAt(s, i) && i + |Auxiliaries()[a]| + 2 + |suffix| <= end
    requires TwoRuns(s, i + |Auxiliaries()[a]|, m, end, |suffix|, SpaceClass, WordClass)
    requires LitAt(s, end - |suffix|, suffix) && BoundaryAt(s, end)
    ensures PassiveShaped(s, i, end, suffix)
  {
    assert AuxiliaryThenWord(s, i, a, m, end, suffix);
  }

  /** What each passive suggestion is: a medium style note on exactly the span it covers,
      which has the passive anatomy. */
  ghost predicate PassiveEntry(s: string, x: Suggestion, suffix: string) {
    && x.kind == Style && x.severity == Medium && x.message == ActiveVoice && x.suggestedText == None
    && 0 <= x.startPosition <= x.endPosition <= |s|
    && x.originalText == s[x.startPosition..x.endPosition]
    && x.endPosition == x.startPosition + |x.originalText|
    && PassiveShaped(s, x.startPosition, x.endPosition, suffix)
  }

  lemma PassiveEntries(s: string, ms: seq<Match>, suffix: string)
    requires ValidMatches(s, ms)
    requires forall idx :: 0 <= idx < |ms| ==> PassiveShaped(s, ms[idx].start, ms[idx].end, suffix)
    ensures forall k :: 0 <= k < |PassiveFromMatches(s, ms)| ==> PassiveEntry(s, PassiveFromMatches(s, ms)[k], suffix)
  {
  }

  /** Every suggestion of one passive pattern is a passive span of the text. */
  lemma PassiveForShape(s: string, suffix: string)
    ensures forall k :: 0 <= k < |PassiveFor(s, suffix)| ==> PassiveEntry(s, PassiveFor(s, suffix)[k], suffix)
  {
    PassivePatternAdvances(suffix);
    var p := PassivePattern(suffix);
    var ms := Scan(s, p, 0);
    forall idx | 0 <= idx < |ms|
      ensures PassiveShaped(s, ms[idx].start, ms[idx].end, suffix)
    {
      ScanMatches(s, p, 0, idx);
      PassiveMatchShape(s, ms[idx].start, suffix, Tail(ms[idx].end, ms[idx].group));
    }
    PassiveEntries(s, ms, suffix);
  }

  /** The passive suggestions: first the "-ed" spans, then the "-en" spans. */
  lemma PassiveSuggestionsShape(s: string)
    ensures |PassiveSuggestions(s)| == |PassiveFor(s, "ed")| + |PassiveFor(s, "en")|
    ensures forall k :: 0 <= k < |PassiveFor(s, "ed")| ==> PassiveEntry(s, PassiveSuggestions(s)[k], "ed")
    ensures forall k :: |PassiveFor(s, "ed")| <= k < |PassiveSuggestions(s)| ==>
              PassiveEntry(s, PassiveSuggestions(s)[k], "en")
  {
    PassiveForShape(s, "ed");
    PassiveForShape(s, "en");
    var ed := PassiveFor(s, "ed");
    var en := PassiveFor(s, "en");
    forall k | |ed| <= k < |ed| + |en|
      ensures PassiveSuggestions(s)[k] == en[k - |ed|]
    {
    }
  }

  lemma PassiveFromMatchesOrdered(s: string, ms: seq<Match>)
    requires ValidMatches(s, ms)
    requires forall k :: 0 <= k < |ms| - 1 ==> ms[k].end <= ms[k + 1].start
    ensures forall k :: 0 <= k < |PassiveFromMatches(s, ms)| - 1 ==>
              PassiveFromMatches(s, ms)[k].endPosition <= PassiveFromMatches(s, ms)[k + 1].startPosition
  {
  }

  /** The spans of one passive pattern are disjoint and in increasing order. */
  lemma PassiveForOrdered(s: string, suffix: string)
    ensures forall k :: 0 <= k < |PassiveFor(s, suffix)| - 1 ==>
              PassiveFor(s, suffix)[k].endPosition <= PassiveFor(s, suffix)[k + 1].startPosition
  {
    PassivePatternAdvances(suffix);
    ScanOrdered(s, PassivePattern(suffix), 0);
    PassiveFromMatchesOrdered(s, Scan(s, PassivePattern(suffix), 0));
  }

  // ---------------------------------------------------------------------------
  // Repetition

  /** `\b\w+\b` with the flag `g`. */
  function WordRun(): Pattern {
    [Boundary, Plus(WordClass, false), Boundary]
  }

  lemma WordRunAdvances()
    ensures MinLen(WordRun()) == 1
  {
    var p := WordRun();
    assert MinLen(p[2..]) == 0;
    assert MinLen(p[1..]) == 1;
  }

  function RunsFromMatches(s: string, ms: seq<Match>): seq<string>
    requires ValidMatches(s, ms)
  {
    seq(|ms|, k requires 0 <= k < |ms| => s[ms[k].start..ms[k].end])
  }

  /** `text.toLowerCase().match(/\b\w+\b/g) || []` */
  function TextWords(text: string): seq<string> {
    WordRunAdvances();
    var lt := Lower(text);
    RunsFromMatches(lt, Scan(lt, WordRun(), 0))
  }

  /** Occurrences of `w` in `xs`. */
  function Count(xs: seq<string>, w: string): (n: nat)
    ensures n <= |xs|
    ensures n > 0 <==> w in xs
  {
    if xs == [] then 0
    else Count(xs[..|xs| - 1], w) + (if xs[|xs| - 1] == w then 1 else 0)
  }

  /** Keys that a plain object already has: counting them leaves no numeric own entry
      ("constructor" becomes a string, an assignment to "__proto__" is ignored), so
      they are never reported. */
  predicate Inherited(w: string) {
    w == "constructor" || w == "__proto__"
  }

  /** The words the frequency table counts. */
  predicate Counted(w: string) {
    |w| > 4 && !Inherited(w)
  }

  /** A word that gets a repetition suggestion: counted, and occurring more than three times. */
  predicate Repeated(words: seq<string>, w: string) {
    w in words && Counted(w) && Count(words, w) > 3
  }

  predicate OccursAt(s: string, w: string, k: nat) {
    k + |w| <= |s| && s[k..k + |w|] == w
  }

  /** `s.indexOf(w, from)`: the first position at or after `from` where `w` occurs, or -1. */
  function IndexOfFrom(s: string, w: string, from: nat): (i: int)
    ensures i == -1 || (from <= i && OccursAt(s, w, i))
    ensures forall k :: from <= k && (i == -1 || k < i) ==> !OccursAt(s, w, k)
    decreases |s| - from
  {
    if from + |w| > |s| then -1
    else if s[from..from + |w|] == w then from
    else IndexOfFrom(s, w, from + 1)
  }

  function IndexOf(s: string, w: string): int {
    IndexOfFrom(s, w, 0)
  }

  function RepetitionOf(lt: string, words: seq<string>, w: string): Suggestion {
    var start := IndexOf(lt, w);
    Suggestion(Style, Low, Synonyms(w, Count(words, w)), w, None, start, start + |w|)
  }

  /** The counting loop: `wordFreq[word] = (wordFreq[word] || 0) + 1` for every long word. */
  method CountFrequencies(words: seq<string>) returns (freq: map<string, nat>)
    ensures forall w :: w in freq <==> w in words && Counted(w)
    ensures forall w :: w in freq ==> freq[w] == Count(words, w)
  {
    freq := map[];
    for i := 0 to |words|
      invariant forall w :: w in freq <==> w in words[..i] && Counted(w)
      invariant forall w :: w in freq ==> freq[w] == Count(words[..i], w)
    {
      var word := words[i];
      assert words[..i + 1][..i] == words[..i];
      assert words[..i + 1] == words[..i] + [word];
      if Counted(word) {
        var previous := if word in freq then freq[word] else 0;
        freq := freq[word := previous + 1];
      }
    }
    assert words[..|words|] == words;
  }

  /** `for (const [word, count] of Object.entries(wordFreq)) if (count > 3) push(...)`, in
      whatever order the keys are enumerated. */
  method RepetitionSuggestions(lt: string, words: seq<string>, freq: map<string, nat>)
    returns (reps: seq<Suggestion>)
    requires forall w :: w in freq <==> w in words && Counted(w)
    requires forall w :: w in freq ==> freq[w] == Count(words, w)
    ensures forall x :: x in reps ==> Repeated(words, x.originalText) && x == RepetitionOf(lt, words, x.originalText)
    ensures forall w :: Repeated(words, w) ==> RepetitionOf(lt, words, w) in reps
    ensures forall i, j :: 0 <= i < j < |reps| ==> reps[i].originalText != reps[j].originalText
  {
    reps := [];
    var keys := freq.Keys;
    while keys != {}
      invariant keys <= freq.Keys
      invariant forall x :: x in reps ==>
                  x.originalText in freq && x.originalText !in keys
                  && Repeated(words, x.originalText) && x == RepetitionOf(lt, words, x.originalText)
      invariant forall w :: w in freq && w !in keys && freq[w] > 3 ==> RepetitionOf(lt, words, w) in reps
      invariant forall i, j :: 0 <= i < j < |reps| ==> reps[i].originalText != reps[j].originalText
      decreases |keys|
    {
      var word :| word in keys;
      keys := keys - {word};
      var count := freq[word];
      if count > 3 {
        reps := reps + [Suggestion(Style, Low, Synonyms(word, count), word, None,
                                   IndexOf(lt, word), IndexOf(lt, word) + |word|)];
      }
    }
  }

  /** Every word of the lowercased text is found by `indexOf`, at or before the match it came
      from (possibly inside a longer word). */
  lemma RepetitionPosition(text: string, k: nat)
    requires k < |TextWords(text)|
    ensures var w := TextWords(text)[k];
            var i := IndexOf(Lower(text), w);
            0 <= i && OccursAt(Lower(text), w, i)
  {
    WordRunAdvances();
    var lt := Lower(text);
    var ms := Scan(lt, WordRun(), 0);
    var w := TextWords(text)[k];
    assert w == lt[ms[k].start..ms[k].end];
    assert OccursAt(lt, w, ms[k].start);
  }

  /** What a repetition suggestion for `w` is: a low style note on an occurrence of `w` in
      the lowercased text, naming the word and its count. */
  predicate RepetitionEntry(lt: string, words: seq<string>, w: string, x: Suggestion) {
    && x.kind == Style && x.severity == Low && x.originalText == w && x.suggestedText == None
    && 0 <= x.startPosition && x.endPosition == x.startPosition + |w| <= |lt|
    && lt[x.startPosition..x.endPosition] == w
    && x.message == Synonyms(w, Count(words, w))
  }

  /** So every repetition suggestion covers an occurrence of its word in the lowercased text. */
  lemma RepetitionSpan(text: string, w: string)
    requires Repeated(TextWords(text), w)
    ensures RepetitionEntry(Lower(text), TextWords(text), w, RepetitionOf(Lower(text), TextWords(text), w))
  {
    var words := TextWords(text);
    var k :| 0 <= k < |words| && words[k] == w;
    RepetitionPosition(text, k);
    RepetitionOfFacts(Lower(text), words, w);
  }

  lemma RepetitionOfFacts(lt: string, words: seq<string>, w: string)
    requires 0 <= IndexOf(lt, w) && OccursAt(lt, w, IndexOf(lt, w))
    ensures RepetitionEntry(lt, words, w, RepetitionOf(lt, words, w))
  {
  }

  // ---------------------------------------------------------------------------
  // Scores

  /** `Math.max(50, 100 - suggestions.length * 5)` */
  function OverallScore(count: nat): (score: real)
    ensures 50.0 <= score <= 100.0
  {
    var raw := 100.0 - (count as real) * 5.0;
    if raw < 50.0 then 50.0 else raw
  }

  lemma OverallScoreNonIncreasing(c1: nat, c2: nat)
    requires c1 <= c2
    ensures OverallScore(c2) <= OverallScore(c1)
  {
  }

  lemma OverallScoreFloor(count: nat)
    ensures OverallScore(count) == 50.0 <==> count >= 10
  {
  }

  /** `.filter(s => s.trim().length > 0)` */
  function NonBlank(xs: seq<string>): (r: seq<string>)
    ensures |r| <= |xs|
    ensures forall k :: 0 <= k < |r| ==> !AllSpace(r[k])
  {
    if xs == [] then [] else (if AllSpace(xs[0]) then [] else [xs[0]]) + NonBlank(xs[1..])
  }

  /** `text.split(/[.!?]+/).filter(s => s.trim().length > 0).length` */
  function SentenceCount(text: string): nat {
    |NonBlank(Split(text, SentenceEnd))|
  }

  /** `text.trim().split(/\s+/).length`: never zero, as splitting always yields a piece. */
  function TrimmedPieceCount(text: string): (n: nat)
    ensures n >= 1
  {
    |Split(Trim(text), Whitespace)|
  }

  /** The banded score on the average of words per sentence. */
  function BandScore(avg: real): (score: real)
    requires avg >= 0.0
    ensures 40.0 <= score <= 100.0
    ensures 15.0 <= avg <= 20.0 ==> score == 100.0
    ensures avg < 15.0 ==> 60.0 <= score < 100.0
    ensures avg > 20.0 ==> 40.0 <= score < 100.0
  {
    if 15.0 <= avg <= 20.0 then 100.0
    else if avg < 15.0 then
      var raw := 100.0 - (15.0 - avg) * 3.0;
      if raw < 60.0 then 60.0 else raw
    else
      var raw := 100.0 - (avg - 20.0) * 2.0;
      if raw < 40.0 then 40.0 else raw
  }

  /** The readability estimate.  With no sentence the average is infinite in JavaScript,
      which lands in the last band at its floor of 40. */
  function Readability(text: string): (score: real)
    ensures 40.0 <= score <= 100.0
    ensures SentenceCount(text) == 0 ==> score == 40.0
    ensures var (w, n) := (TrimmedPieceCount(text), SentenceCount(text));
            n > 0 && 15 * n <= w <= 20 * n ==> score == 100.0
  {
    ReadabilityOf(TrimmedPieceCount(text), SentenceCount(text))
  }

  function ReadabilityOf(words: nat, sentences: nat): (score: real)
    ensures 40.0 <= score <= 100.0
    ensures sentences == 0 ==> score == 40.0
    ensures sentences > 0 && 15 * sentences <= words <= 20 * sentences ==> score == 100.0
  {
    if sentences == 0 then 40.0
    else
      var avg := words as real / sentences as real;
      DivideWithinBand(words as real, sentences as real);
      BandScore(avg)
  }

  /** A ratio between 15 and 20 times the divisor divides to between 15 and 20. */
  lemma DivideWithinBand(w: real, s: real)
    requires s > 0.0
    ensures 15.0 * s <= w <= 20.0 * s ==> 15.0 <= w / s <= 20.0
  {
  }

  // ---------------------------------------------------------------------------
  // The fallback and the entry point

  /** What every run of the fallback on `text` yields; only the order of the repetition
      suggestions is left open, as it follows the enumeration order of the table. */
  ghost predicate IsBasicAnalysis(text: string, r: AnalysisResult) {
    var passive := PassiveSuggestions(text);
    var words := TextWords(text);
    var lt := Lower(text);
    && |passive| <= |r.suggestions|
    && r.suggestions[..|passive|] == passive
    && (forall x :: x in r.suggestions[|passive|..] ==>
          Repeated(words, x.originalText) && x == RepetitionOf(lt, words, x.originalText))
    && (forall w :: Repeated(words, w) ==> RepetitionOf(lt, words, w) in r.suggestions[|passive|..])
    && (forall i, j :: |passive| <= i < j < |r.suggestions| ==>
          r.suggestions[i].originalText != r.suggestions[j].originalText)
    && r.overallScore == OverallScore(|r.suggestions|)
    && r.wordCount == TrimmedPieceCount(text)
    && r.readabilityScore == Some(Readability(text))
  }

  method BasicAnalysis(text: string) returns (r: AnalysisResult)
    ensures IsBasicAnalysis(text, r)
  {
    var words := TrimmedPieceCount(text);
    var edMatches := CollectPassive(text, "ed");
    var enMatches := CollectPassive(text, "en");
    var passive := edMatches + enMatches;
    var lt := Lower(text);
    var textWords := TextWords(text);
    var freq := CountFrequencies(textWords);
    var reps := RepetitionSuggestions(lt, textWords, freq);
    var suggestions := passive + reps;
    assert suggestions[..|passive|] == passive;
    assert suggestions[|passive|..] == reps;
    r := AnalysisResult(suggestions, OverallScore(|suggestions|), words, Some(Readability(text)));
  }

  /** The result for blank text. */
  const Blank := AnalysisResult([], 100.0, 0, None)

  method AnalyzeText(text: string, provider: ProviderOutcome) returns (r: AnalysisResult)
    ensures Trim(text) == [] ==> r == Blank
    ensures Trim(text) != [] && provider.Parsed? ==> r == provider.result
    ensures Trim(text) != [] && provider.Failed? ==> IsBasicAnalysis(text, r)
  {
    if Trim(text) == [] {
      return Blank;
    }
    match provider
    case Parsed(result) => r := result;
    case Failed => r := BasicAnalysis(text);
  }

  // ---------------------------------------------------------------------------
  // Properties of the entry point and the scores

  /** Blank means whitespace only: such text never reaches the provider. */
  lemma BlankIsWhitespaceOnly(text: string)
    ensures Trim(text) == [] <==> AllSpace(text)
  {
    TrimEmptyIffBlank(text);
  }

  /** The fallback's word count is the number of whitespace-delimited words of non-blank text. */
  lemma FallbackWordCount(text: string)
    requires !AllSpace(text)
    ensures TrimmedPieceCount(text) == |Words(text)|
  {
    TrimSplitLength(text);
  }

  /** Without a sentence the average is infinite and the score is the floor of the last band. */
  lemma PunctuationOnlyScoresForty()
    ensures SentenceCount("!!!") == 0 && Readability("!!!") == 40.0
  {
    var s := "!!!";
    assert NextSep(s, SentenceEnd, 0) == 0;
    assert SepRunEnd(s, SentenceEnd, 0) == 3;
    assert s[3..] == [];
    assert Split(s[3..], SentenceEnd) == [[]];
    assert Split(s, SentenceEnd) == [[], []];
  }
}
