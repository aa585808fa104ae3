/**
 * The local pattern engine of the editor: a fixed catalogue of phrase rules in four
 * categories, the scan that turns every match into a span-tagged suggestion, the
 * escalation heuristic that decides whether the AI is worth asking, the confidence
 * filter shown to the user, the merge of AI suggestions by start proximity, and the
 * word-set change detector that gates re-analysis.
 */
module LocalAnalysis {
  import opened Wrappers
  import opened Text
  import opened Patterns

  /** The categories of the catalogue, in the order `Object.entries` visits them. */
  datatype Category = Grammar | Style | Redundancy | Clarity

  const CategoryOrder: seq<Category> := [Grammar, Style, Redundancy, Clarity]

  function Rank(c: Category): nat {
    match c
    case Grammar => 0
    case Style => 1
    case Redundancy => 2
    case Clarity => 3
  }

  /** One rule of the catalogue; `confidence` is in hundredths (0.9 is 90). */
  datatype Rule = Rule(pattern: Pattern, suggestion: string, reason: string, confidence: nat, isFunction: bool)

  /** `\bphrase\b` */
  function Phrase(p: string): Pattern {
    [Boundary, Lit(p), Boundary]
  }

  /** `\bvery\s+(\w+)` */
  const VeryPattern: Pattern := [Boundary, Lit("very"), Plus(SpaceClass, false), Plus(WordClass, true)]

  /** `\bit's\s+it's\b` */
  const DoubledContraction: Pattern := [Boundary, Lit("it's"), Plus(SpaceClass, false), Lit("it's"), Boundary]

  const VeryRule := Rule(VeryPattern, "", "Consider a stronger adjective", 70, true)

  /** The catalogue, category by category, in declaration order. */
  function Rules(c: Category): seq<Rule> {
    match c
    case Grammar => [
      Rule(Phrase("that that"), "that", "Duplicate word", 90, false),
      Rule(Phrase("the the"), "the", "Duplicate word", 90, false),
      Rule(Phrase("and and"), "and", "Duplicate word", 90, false),
      Rule(Phrase("to to"), "to", "Duplicate word", 90, false),
      Rule(DoubledContraction, "it's", "Duplicate contraction", 85, false),
      Rule(Phrase("would of"), "would have", "Incorrect phrase", 95, false),
      Rule(Phrase("could of"), "could have", "Incorrect phrase", 95, false),
      Rule(Phrase("should of"), "should have", "Incorrect phrase", 95, false)]
    case Style => [
      VeryRule,
      Rule(Phrase("a lot"), "many", "Consider more specific quantifier", 60, false),
      Rule(Phrase("thing"), "", "Consider more specific noun", 50, false),
      Rule(Phrase("stuff"), "", "Consider more specific noun", 50, false)]
    case Redundancy => [
      Rule(Phrase("free gift"), "gift", "Gifts are inherently free", 80, false),
      Rule(Phrase("exact same"), "same", "\"Same\" already implies exactness", 80, false),
      Rule(Phrase("completely finished"), "finished", "\"Finished\" already implies completion", 80, false),
      Rule(Phrase("unexpected surprise"), "surprise", "Surprises are inherently unexpected", 80, false)]
    case Clarity => [
      Rule(Phrase("in order to"), "to", "Simpler phrasing", 70, false),
      Rule(Phrase("due to the fact that"), "because", "Simpler phrasing", 80, false),
      Rule(Phrase("at this point in time"), "now", "Simpler phrasing", 80, false)]
  }

  /** Every rule consumes at least one character, so a global scan always advances. */
  predicate Advancing(rules: seq<Rule>) {
    forall j :: 0 <= j < |rules| ==> MinLen(rules[j].pattern) > 0
  }

  lemma PhraseLen(p: string)
    ensures MinLen(Phrase(p)) == |p|
  {
    var q := Phrase(p);
    assert q[1..][1..][1..] == [];
    assert MinLen(q[1..][1..]) == 0;
    assert MinLen(q[1..]) == |p|;
  }

  lemma CatalogueAdvances(c: Category)
    ensures Advancing(Rules(c))
  {
    var rules := Rules(c);
    forall j | 0 <= j < |rules| ensures MinLen(rules[j].pattern) > 0 {
      var rule := rules[j];
      if c == Grammar && j == 4 {
        assert rule.pattern == DoubledContraction;
        assert DoubledContraction[1..][1..][1..] == [Lit("it's"), Boundary];
        assert MinLen(DoubledContraction[1..][1..]) >= 1;
      } else if c == Style && j == 0 {
        assert rule.pattern == VeryPattern;
        assert VeryPattern[1..][1..][1..] == [Plus(WordClass, true)];
        assert MinLen(VeryPattern[1..][1..]) >= 1;
      } else {
        var t := rule.pattern[1].text;
        assert rule.pattern == Phrase(t) && |t| > 0;
        PhraseLen(t);
      }
    }
  }

  /** The replacement words for "very X", as (adjective, stronger adjective) entries. */
  const StrongerAdjectiveEntries: seq<(string, string)> := [
    ("good", "excellent"), ("bad", "terrible"), ("big", "enormous"), ("small", "tiny"),
    ("happy", "ecstatic"), ("sad", "devastated"), ("angry", "furious"), ("tired", "exhausted"),
    ("hot", "scalding"), ("cold", "freezing"), ("fast", "rapid"), ("slow", "sluggish"),
    ("loud", "deafening"), ("quiet", "silent"), ("pretty", "beautiful"), ("ugly", "hideous"),
    ("old", "ancient"), ("new", "brand-new"), ("easy", "effortless"), ("hard", "challenging")]

  /** The table behind a call, so that lookups are not unfolded over the literal. */
  function StrongerAdjectives(): seq<(string, string)> {
    StrongerAdjectiveEntries
  }

  /** The value of the first entry whose key is `key`, as an object lookup finds it. */
  function Lookup(table: seq<(string, string)>, key: string): (r: Option<string>)
    ensures r.None? <==> forall k :: 0 <= k < |table| ==> table[k].0 != key
    ensures r.Some? ==> exists k :: 0 <= k < |table| && table[k] == (key, r.value)
  {
    if table == [] then None
    else if table[0].0 == key then Some(table[0].1)
    else
      var r := Lookup(table[1..], key);
      assert r.Some? ==> exists k :: 0 <= k < |table[1..]| && table[1..][k] == (key, r.value);
      assert forall k :: 1 <= k < |table| ==> table[k] == table[1..][k - 1];
      r
  }

  /** The keys a plain object inherits from `Object.prototype` that are already lower-case,
      so that a lower-cased adjective can find them: every other inherited name (`toString`,
      `valueOf`, ...) has an upper-case letter. */
  predicate InheritedKey(key: string) {
    key == "constructor" || key == "__proto__"
  }

  /** The inherited value under such a key, as the text it converts to: the `Object`
      constructor for `constructor`, the prototype object itself for `__proto__`. */
  function InheritedValueText(key: string): string {
    if key == "constructor" then "function Object() { [native code] }" else "[object Object]"
  }

  /** `STRONGER_ADJECTIVES[adjective.toLowerCase()] || adjective`: the table's own entry,
      else an inherited value (truthy), else the adjective itself (no table value is empty). */
  function GetStrongerAdjective(adjective: string): (r: string)
    ensures Lookup(StrongerAdjectives(), Lower(adjective)).Some? ==>
              exists k :: 0 <= k < |StrongerAdjectives()|
                && StrongerAdjectives()[k] == (Lower(adjective), r)
    ensures Lookup(StrongerAdjectives(), Lower(adjective)).None? && InheritedKey(Lower(adjective)) ==>
              r == InheritedValueText(Lower(adjective))
    ensures Lookup(StrongerAdjectives(), Lower(adjective)).None? && !InheritedKey(Lower(adjective)) ==>
              r == adjective
  {
    var lower := Lower(adjective);
    match Lookup(StrongerAdjectives(), lower)
    case Some(stronger) => stronger
    case None => if InheritedKey(lower) then InheritedValueText(lower) else adjective
  }

  /** Every adjective in the table has at most six letters. */
  lemma AdjectivesAreShort()
    ensures forall k :: 0 <= k < |StrongerAdjectives()| ==> |StrongerAdjectives()[k].0| <= 6
  {
  }

  /** A key longer than every key of a table has no entry in it. */
  lemma LookupLongerKey(table: seq<(string, string)>, key: string, n: nat)
    requires forall k :: 0 <= k < |table| ==> |table[k].0| <= n
    requires |key| > n
    ensures Lookup(table, key).None?
  {
  }

  /** A key longer than six letters has no entry of its own. */
  lemma LongKeyNotInTable(key: string)
    requires |key| > 6
    ensures Lookup(StrongerAdjectives(), key).None?
  {
    AdjectivesAreShort();
    LookupLongerKey(StrongerAdjectives(), key, 6);
  }

  /** "very Constructor" is not left alone: the lookup finds the inherited constructor. */
  lemma ConstructorIsFound()
    ensures GetStrongerAdjective("Constructor") == "function Object() { [native code] }"
  {
    assert Lower("Constructor") == "constructor";
    LongKeyNotInTable("constructor");
  }

  lemma ProtoIsFound()
    ensures GetStrongerAdjective("__proto__") == "[object Object]"
  {
    assert Lower("__proto__") == "__proto__";
    LongKeyNotInTable("__proto__");
  }

  /** An inherited name with an upper-case letter is lost to the lower-casing. */
  lemma ToStringIsNotFound()
    ensures GetStrongerAdjective("toString") == "toString"
  {
    assert Lower("toString") == "tostring";
    LongKeyNotInTable("tostring");
  }

  datatype LocalSuggestion = LocalSuggestion(
    category: Category, text: string, startIndex: nat, endIndex: nat,
    suggestion: string, confidence: nat, reason: string)

  /** The suggestion pushed for one match of a rule. */
  function SuggestionOf(s: string, c: Category, rule: Rule, m: Match): LocalSuggestion
    requires m.start <= m.end <= |s|
  {
    var suggestion :=
      if rule.isFunction && m.group.Some? && m.group.value != [] then GetStrongerAdjective(m.group.value)
      else rule.suggestion;
    LocalSuggestion(c, s[m.start..m.end], m.start, m.end, suggestion, rule.confidence, rule.reason)
  }

  function FromMatches(s: string, c: Category, rule: Rule, ms: seq<Match>): (r: seq<LocalSuggestion>)
    requires ValidMatches(s, ms)
  {
    seq(|ms|, k requires 0 <= k < |ms| => SuggestionOf(s, c, rule, ms[k]))
  }

  /** The suggestions of one rule: one per match of its global scan from index 0. */
  function RuleSuggestions(s: string, c: Category, rule: Rule): seq<LocalSuggestion>
    requires MinLen(rule.pattern) > 0
  {
    FromMatches(s, c, rule, Scan(s, rule.pattern, 0))
  }

  /** The suggestions of the first n rules of a category. */
  function RulesUpTo(s: string, c: Category, rules: seq<Rule>, n: nat): seq<LocalSuggestion>
    requires n <= |rules| && Advancing(rules)
  {
    if n == 0 then [] else RulesUpTo(s, c, rules, n - 1) + RuleSuggestions(s, c, rules[n - 1])
  }

  function CategorySuggestions(s: string, c: Category): seq<LocalSuggestion> {
    CatalogueAdvances(c);
    RulesUpTo(s, c, Rules(c), |Rules(c)|)
  }

  /** The suggestions of the first n categories. */
  function CategoriesUpTo(s: string, n: nat): seq<LocalSuggestion>
    requires n <= |CategoryOrder|
  {
    if n == 0 then [] else CategoriesUpTo(s, n - 1) + CategorySuggestions(s, CategoryOrder[n - 1])
  }

  /** What `analyzeTextLocally` returns. */
  function LocalSuggestions(s: string): seq<LocalSuggestion> {
    CategoriesUpTo(s, |CategoryOrder|)
  }

  /** `analyzeTextLocally`: every category, every rule, every `exec` match in turn. */
  method AnalyzeTextLocally(text: string) returns (suggestions: seq<LocalSuggestion>)
    ensures suggestions == LocalSuggestions(text)
  {
    suggestions := [];
    for ci := 0 to |CategoryOrder|
      invariant suggestions == CategoriesUpTo(text, ci)
    {
      var c := CategoryOrder[ci];
      CatalogueAdvances(c);
      var found := ApplyRules(text, c, Rules(c));
      suggestions := suggestions + found;
    }
  }

  /** The rules of one category, in order. */
  method ApplyRules(text: string, c: Category, patterns: seq<Rule>) returns (found: seq<LocalSuggestion>)
    requires Advancing(patterns)
    ensures found == RulesUpTo(text, c, patterns, |patterns|)
  {
    found := [];
    for ri := 0 to |patterns|
      invariant found == RulesUpTo(text, c, patterns, ri)
    {
      var more := ExecAll(text, c, patterns[ri]);
      found := found + more;
    }
  }

  /** The `while ((match = regex.exec(text)) !== null)` loop of one rule. */
  method ExecAll(text: string, c: Category, rule: Rule) returns (found: seq<LocalSuggestion>)
    requires MinLen(rule.pattern) > 0
    ensures found == RuleSuggestions(text, c, rule)
  {
    var regex := rule.pattern;
    found := [];
    var lastIndex := 0;
    ghost var seen: seq<Match> := [];
    var m := Exec(text, regex, lastIndex);
    while m.Some?
      invariant lastIndex <= |text|
      invariant m == Exec(text, regex, lastIndex)
      invariant Scan(text, regex, 0) == seen + Scan(text, regex, lastIndex)
      invariant ValidMatches(text, seen) && |found| == |seen|
      invariant forall k :: 0 <= k < |seen| ==> found[k] == SuggestionOf(text, c, rule, seen[k])
      decreases |text| - lastIndex
    {
      var mv := m.value;
      ScanUnfold(text, regex, lastIndex);
      found := found + [SuggestionOf(text, c, rule, mv)];
      seen := seen + [mv];
      lastIndex := mv.end;
      m := Exec(text, regex, lastIndex);
    }
    assert Scan(text, regex, lastIndex) == [];
    assert seen + [] == seen;
  }

  // ---------------------------------------------------------------------------
  // Properties of the scan

  /** Facts every suggestion of one rule satisfies. */
  predicate FromRule(s: string, c: Category, rule: Rule, x: LocalSuggestion) {
    && x.category == c
    && x.startIndex < x.endIndex <= |s|
    && x.text == s[x.startIndex..x.endIndex]
    && x.endIndex == x.startIndex + |x.text|
    && x.confidence == rule.confidence
    && x.reason == rule.reason
  }

  predicate FromCatalogue(s: string, x: LocalSuggestion) {
    exists j :: 0 <= j < |Rules(x.category)| && FromRule(s, x.category, Rules(x.category)[j], x)
  }

  lemma RuleSuggestionsShape(s: string, c: Category, rule: Rule)
    requires MinLen(rule.pattern) > 0
    ensures forall x :: x in RuleSuggestions(s, c, rule) ==> FromRule(s, c, rule, x)
  {
  }

  lemma {:induction false} RulesUpToShape(s: string, c: Category, rules: seq<Rule>, n: nat)
    requires n <= |rules| && Advancing(rules)
    ensures forall x :: x in RulesUpTo(s, c, rules, n) ==>
              x.category == c && exists j :: 0 <= j < |rules| && FromRule(s, c, rules[j], x)
  {
    if n > 0 {
      RulesUpToShape(s, c, rules, n - 1);
      RuleSuggestionsShape(s, c, rules[n - 1]);
    }
  }

  lemma {:induction false} CategoriesUpToShape(s: string, n: nat)
    requires n <= |CategoryOrder|
    ensures forall x :: x in CategoriesUpTo(s, n) ==> FromCatalogue(s, x) && Rank(x.category) < n
  {
    if n > 0 {
      CategoriesUpToShape(s, n - 1);
      var c := CategoryOrder[n - 1];
      CatalogueAdvances(c);
      RulesUpToShape(s, c, Rules(c), |Rules(c)|);
      assert Rank(c) == n - 1;
    }
  }

  /** Every local suggestion spans exactly its text in the input, and carries the confidence,
      reason and category of the catalogue rule that produced it. */
  lemma LocalSuggestionsSpans(s: string)
    ensures forall x :: x in LocalSuggestions(s) ==>
              && x.startIndex < x.endIndex <= |s|
              && x.text == s[x.startIndex..x.endIndex]
              && x.endIndex == x.startIndex + |x.text|
              && FromCatalogue(s, x)
  {
    CategoriesUpToShape(s, |CategoryOrder|);
  }

  /** The output is grouped by category, in the order grammar, style, redundancy, clarity. */
  lemma {:induction false} CategoriesGrouped(s: string, n: nat)
    requires n <= |CategoryOrder|
    ensures forall i, j :: 0 <= i < j < |CategoriesUpTo(s, n)| ==>
              Rank(CategoriesUpTo(s, n)[i].category) <= Rank(CategoriesUpTo(s, n)[j].category)
  {
    if n > 0 {
      CategoriesGrouped(s, n - 1);
      CategoriesUpToShape(s, n - 1);
      var c := CategoryOrder[n - 1];
      CatalogueAdvances(c);
      RulesUpToShape(s, c, Rules(c), |Rules(c)|);
      assert Rank(c) == n - 1;
      var a: seq<LocalSuggestion> := CategoriesUpTo(s, n - 1);
      var b: seq<LocalSuggestion> := CategorySuggestions(s, c);
      assert CategoriesUpTo(s, n) == a + b;
      var ab: seq<LocalSuggestion> := a + b;
      forall i, j | 0 <= i < j < |ab|
        ensures Rank(ab[i].category) <= Rank(ab[j].category)
      {
        if j >= |a| {
          assert ab[j] == b[j - |a|];
          assert b[j - |a|] in b;
          if i < |a| {
            assert a[i] in a;
          } else {
            assert ab[i] == b[i - |a|];
            assert b[i - |a|] in b;
          }
        }
      }
    }
  }

  lemma LocalSuggestionsGrouped(s: string)
    ensures forall i, j :: 0 <= i < j < |LocalSuggestions(s)| ==>
              Rank(LocalSuggestions(s)[i].category) <= Rank(LocalSuggestions(s)[j].category)
  {
    CategoriesGrouped(s, |CategoryOrder|);
  }

  /** The matches of one rule do not overlap and come in increasing order of position. */
  lemma RuleSuggestionsOrdered(s: string, c: Category, rule: Rule)
    requires MinLen(rule.pattern) > 0
    ensures forall k :: 0 <= k < |RuleSuggestions(s, c, rule)| - 1 ==>
              RuleSuggestions(s, c, rule)[k].endIndex <= RuleSuggestions(s, c, rule)[k + 1].startIndex
  {
    ScanOrdered(s, rule.pattern, 0);
  }

  /** "very", then whitespace up to e, then word characters up to b. */
  predicate VeryAt(s: string, a: nat, e: nat, b: nat) {
    && a + 4 < e < b <= |s|
    && Lower(s[a..a + 4]) == "very"
    && AllSpace(s[a + 4..e])
    && AllWord(s[e..b])
  }

  /** The anatomy of a "very" match: the literal, then a whitespace run, then a word run that
      ends the match and is the captured group. */
  predicate VeryShaped(s: string, m: Match) {
    m.start + 4 <= |s| &&
    var e := RunEnd(s, SpaceClass, m.start + 4);
    VeryAt(s, m.start, e, m.end) && m.group == Some(s[e..m.end])
  }

  /** A text that reads "very", whitespace up to k, then a word. */
  predicate VeryText(t: string, k: nat) {
    && 4 < k < |t|
    && Lower(t[..4]) == "very"
    && AllSpace(t[4..k])
    && AllWord(t[k..])
  }

  /** The conclusion about one suggestion of the "very" rule. */
  predicate StrongerForm(x: LocalSuggestion) {
    exists k :: 0 <= k < |x.text| && VeryText(x.text, k) && x.suggestion == GetStrongerAdjective(x.text[k..])
  }

  /** For "very X" the suggestion is the stronger adjective for X, or X unchanged; the text
      is "very", whitespace, and the word X. */
  lemma VerySuggestion(s: string)
    requires MinLen(VeryPattern) > 0
    ensures forall x :: x in RuleSuggestions(s, Style, VeryRule) ==> StrongerForm(x)
  {
    var ms := Scan(s, VeryPattern, 0);
    VeryScanShaped(s);
    VeryShapedSuggestions(s, VeryRule, ms);
  }

  lemma VeryScanShaped(s: string)
    requires MinLen(VeryPattern) > 0
    ensures forall idx :: 0 <= idx < |Scan(s, VeryPattern, 0)| ==> VeryShaped(s, Scan(s, VeryPattern, 0)[idx])
  {
    var ms := Scan(s, VeryPattern, 0);
    forall idx | 0 <= idx < |ms| ensures VeryShaped(s, ms[idx]) {
      ScanMatches(s, VeryPattern, 0, idx);
      var m := ms[idx];
      VeryMatch(s, m.start, Tail(m.end, m.group));
    }
  }

  lemma VeryShapedSuggestions(s: string, rule: Rule, ms: seq<Match>)
    requires rule.isFunction
    requires ValidMatches(s, ms)
    requires forall idx :: 0 <= idx < |ms| ==> VeryShaped(s, ms[idx])
    ensures forall x :: x in FromMatches(s, Style, rule, ms) ==> StrongerForm(x)
  {
    forall x | x in FromMatches(s, Style, rule, ms) ensures StrongerForm(x) {
      var idx :| 0 <= idx < |ms| && x == SuggestionOf(s, Style, rule, ms[idx]);
      VeryShapedText(s, rule, ms[idx]);
    }
  }

  lemma VeryShapedText(s: string, rule: Rule, m: Match)
    requires rule.isFunction && m.start <= m.end <= |s|
    requires VeryShaped(s, m)
    ensures StrongerForm(SuggestionOf(s, Style, rule, m))
  {
    var e := RunEnd(s, SpaceClass, m.start + 4);
    var x := SuggestionOf(s, Style, rule, m);
    var k := e - m.start;
    VeryWords(s, m.start, e, m.end);
    assert VeryText(x.text, k) && x.suggestion == GetStrongerAdjective(x.text[k..]);
  }

  lemma VeryWords(s: string, a: nat, e: nat, b: nat)
    requires VeryAt(s, a, e, b)
    ensures VeryText(s[a..b], e - a)
    ensures s[a..b][e - a..] == s[e..b]
  {
    SliceOfSlice(s, a, b, 0, 4);
    SliceOfSlice(s, a, b, 4, e - a);
    SliceOfSlice(s, a, b, e - a, b - a);
    assert s[a..b][e - a..] == s[a..b][e - a..b - a];
    assert s[a..b][..4] == s[a..b][0..4];
  }

  lemma SliceOfSlice(s: string, a: nat, b: nat, i: nat, j: nat)
    requires a <= b <= |s| && i <= j <= b - a
    ensures s[a..b][i..j] == s[a + i..a + j]
  {
    assert |s[a..b][i..j]| == j - i;
    forall q | 0 <= q < j - i ensures s[a..b][i..j][q] == s[a + i..a + j][q] {
      assert s[a..b][i..j][q] == s[a..b][i + q] == s[a + i + q];
    }
  }

  /** Anatomy of a "very" match: the literal, the whole whitespace run after it, and the
      maximal word run after that, which is the captured group. */
  lemma VeryMatch(s: string, i: nat, t: Tail)
    requires i <= |s|
    requires MatchAt(s, i, VeryPattern) == Some(t)
    ensures VeryShaped(s, Match(i, t.end, t.group))
  {
    var rest := [Plus(WordClass, true)];
    assert VeryPattern[1..] == [Lit("very"), Plus(SpaceClass, false)] + rest;
    assert VeryPattern[2..] == [Plus(SpaceClass, false)] + rest;
    assert VeryPattern[3..] == rest;
    assert LitAt(s, i, "very");
    var e := RunEnd(s, SpaceClass, i + 4);
    assert e > i + 4;
    assert MatchAt(s, i, VeryPattern) == TryRun(s, i + 4, e, false, rest);
    SpaceRunThenWord(s, i + 4, e);
    TrailingCapture(s, e);
    assert AllWord(s[e..t.end]) by {
      var w := s[e..t.end];
      forall m | 0 <= m < |w| ensures IsWordChar(w[m]) {
        assert w[m] == s[e + m];
      }
    }
    assert AllSpace(s[i + 4..e]) by {
      var sp := s[i + 4..e];
      forall m | 0 <= m < |sp| ensures IsSpace(sp[m]) {
        assert sp[m] == s[i + 4 + m];
        assert InClass(s[i + 4 + m], SpaceClass);
      }
    }
  }

  /** Backing off a whitespace run never helps `\w+`: only the full run can succeed. */
  lemma SpaceRunThenWord(s: string, i: nat, e: nat)
    requires i < e <= |s|
    requires e == RunEnd(s, SpaceClass, i)
    ensures MatchAt(s, e, [Plus(WordClass, true)]).None? ==>
              TryRun(s, i, e, false, [Plus(WordClass, true)]).None?
    ensures MatchAt(s, e, [Plus(WordClass, true)]).Some? ==>
              TryRun(s, i, e, false, [Plus(WordClass, true)]) == MatchAt(s, e, [Plus(WordClass, true)])
  {
    if MatchAt(s, e, [Plus(WordClass, true)]).None? && e - 1 > i {
      NoWordInsideSpaces(s, i, e, e - 1);
    }
  }

  lemma {:induction false} NoWordInsideSpaces(s: string, i: nat, e: nat, k: nat)
    requires i < k < e <= |s|
    requires e == RunEnd(s, SpaceClass, i)
    ensures TryRun(s, i, k, false, [Plus(WordClass, true)]).None?
    decreases k
  {
    var rest := [Plus(WordClass, true)];
    assert InClass(s[k], SpaceClass);
    assert RunEnd(s, WordClass, k) == k;
    assert MatchAt(s, k, rest).None?;
    if k - 1 > i {
      NoWordInsideSpaces(s, i, e, k - 1);
    }
  }

  // ---------------------------------------------------------------------------
  // The confidence filter and the escalation heuristic

  /** a is b with some elements left out, order kept. */
  predicate IsSubsequence<T(==)>(a: seq<T>, b: seq<T>)
    decreases |b|
  {
    if a == [] then true
    else if b == [] then false
    else if a[0] == b[0] then IsSubsequence(a[1..], b[1..])
    else IsSubsequence(a, b[1..])
  }

  /** `convertLocalSuggestionsToInline`: the suggestions above confidence 0.6, in their order. */
  function ConvertToInline(ss: seq<LocalSuggestion>): (r: seq<LocalSuggestion>)
    ensures IsSubsequence(r, ss)
    ensures forall x :: x in r ==> x in ss && x.confidence > 60
    ensures forall x :: x in ss && x.confidence > 60 ==> x in r
  {
    if ss == [] then []
    else
      var rest := ConvertToInline(ss[1..]);
      assert forall x :: x in ss ==> x == ss[0] || x in ss[1..];
      if ss[0].confidence > 60 then [ss[0]] + rest else rest
  }

  /** The rules below the display threshold are exactly those with these two reasons. */
  lemma QuietRules(c: Category)
    ensures forall j :: 0 <= j < |Rules(c)| && Rules(c)[j].confidence > 60 ==>
              && Rules(c)[j].reason != "Consider more specific quantifier"
              && Rules(c)[j].reason != "Consider more specific noun"
  {
  }

  /** "a lot", "thing" and "stuff" are detected but never shown: after the filter no
      suggestion carries their reasons. */
  lemma QuietRulesHidden(s: string)
    ensures forall x :: x in ConvertToInline(LocalSuggestions(s)) ==>
              && x.reason != "Consider more specific quantifier"
              && x.reason != "Consider more specific noun"
  {
    LocalSuggestionsSpans(s);
    QuietFiltered(s, LocalSuggestions(s));
  }

  lemma QuietFiltered(s: string, all: seq<LocalSuggestion>)
    requires forall x :: x in all ==> FromCatalogue(s, x)
    ensures forall x :: x in ConvertToInline(all) ==>
              && x.reason != "Consider more specific quantifier"
              && x.reason != "Consider more specific noun"
  {
    forall x | x in ConvertToInline(all)
      ensures x.reason != "Consider more specific quantifier" && x.reason != "Consider more specific noun"
    {
      assert x in all && x.confidence > 60;
      var j :| 0 <= j < |Rules(x.category)| && FromRule(s, x.category, Rules(x.category)[j], x);
      QuietRules(x.category);
    }
  }

  function HighConfidenceCount(ss: seq<LocalSuggestion>): nat {
    if ss == [] then 0 else (if ss[0].confidence > 80 then 1 else 0) + HighConfidenceCount(ss[1..])
  }

  /** `shouldUseAI`, with the word count read as the number of maximal non-whitespace runs. */
  function ShouldUseAI(text: string, local: seq<LocalSuggestion>): (r: bool)
    ensures r <==> && |Words(text)| >= 30
                   && HighConfidenceCount(local) <= 5
                   && (|Words(text)| > 100 || |local| < 3)
  {
    TokensAreWords(text);
    var wordCount := WordCount(text);
    if wordCount < 30 then false
    else if HighConfidenceCount(local) > 5 then false
    else if wordCount > 100 then true
    else |local| < 3
  }

  // ---------------------------------------------------------------------------
  // The hybrid merge

  /** What the AI function hands back; its `startIndex` may be missing, and arithmetic on a
      missing value yields NaN, which is never within 10 of anything. */
  datatype AiSuggestion = AiSuggestion(startIndex: Option<int>, text: string, suggestion: string, reason: string)

  /** An entry of the merged list: a shown local suggestion or an AI suggestion. */
  datatype Inline = FromLocal(local: LocalSuggestion) | FromAi(ai: AiSuggestion)

  /** The optional AI function: absent, throwing, or returning suggestions. */
  datatype AiOutcome = NoAiFunction | AiFailed | AiReturned(items: seq<AiSuggestion>)

  function StartOf(entry: Inline): Option<int> {
    match entry
    case FromLocal(l) => Some(l.startIndex as int)
    case FromAi(a) => a.startIndex
  }

  /** `Math.abs(a - b) < 10`, false when either side is missing. */
  predicate Near(a: Option<int>, b: Option<int>) {
    a.Some? && b.Some? && -10 < a.value - b.value < 10
  }

  /** `mergedSuggestions.some(...)` for one AI suggestion. */
  predicate Overlaps(merged: seq<Inline>, a: AiSuggestion) {
    exists k :: 0 <= k < |merged| && Near(StartOf(merged[k]), a.startIndex)
  }

  /** The merge after the first n AI suggestions have been considered. */
  function MergePrefix(base: seq<Inline>, ai: seq<AiSuggestion>, n: nat): seq<Inline>
    requires n <= |ai|
  {
    if n == 0 then base
    else
      var merged := MergePrefix(base, ai, n - 1);
      if Overlaps(merged, ai[n - 1]) then merged else merged + [FromAi(ai[n - 1])]
  }

  function Shown(local: seq<LocalSuggestion>): (r: seq<Inline>)
    ensures |r| == |local|
  {
    seq(|local|, k requires 0 <= k < |local| => FromLocal(local[k]))
  }

  /** What `hybridAnalysis` resolves to. */
  function Hybrid(text: string, ai: AiOutcome): seq<Inline> {
    var local := LocalSuggestions(text);
    var shown := Shown(ConvertToInline(local));
    if !ShouldUseAI(text, local) || !ai.AiReturned? then shown
    else MergePrefix(shown, ai.items, |ai.items|)
  }

  /** `hybridAnalysis`: local analysis, the escalation decision, and the merge loop. */
  method HybridAnalysis(text: string, ai: AiOutcome) returns (result: seq<Inline>)
    ensures result == Hybrid(text, ai)
  {
    var local := AnalyzeTextLocally(text);
    var needsAI := ShouldUseAI(text, local);
    var shown := Shown(ConvertToInline(local));
    if !needsAI || ai.NoAiFunction? {
      return shown;
    }
    match ai
    case AiFailed =>
      result := shown;
    case AiReturned(items) =>
      result := MergeAi(shown, items);
  }

  /** The `forEach` that appends every AI suggestion overlapping nothing merged so far. */
  method MergeAi(shown: seq<Inline>, items: seq<AiSuggestion>) returns (merged: seq<Inline>)
    ensures merged == MergePrefix(shown, items, |items|)
  {
    merged := shown;
    for i := 0 to |items|
      invariant merged == MergePrefix(shown, items, i)
    {
      var aiSugg := items[i];
      var hasOverlap := exists k :: 0 <= k < |merged| && Near(StartOf(merged[k]), aiSugg.startIndex);
      if !hasOverlap {
        merged := merged + [FromAi(aiSugg)];
      }
    }
  }

  /** The merge keeps the shown local suggestions first, unchanged and in order, and only
      appends AI suggestions after them. */
  lemma {:induction false} MergeKeepsBase(base: seq<Inline>, ai: seq<AiSuggestion>, n: nat)
    requires n <= |ai|
    ensures |base| <= |MergePrefix(base, ai, n)| <= |base| + n
    ensures MergePrefix(base, ai, n)[..|base|] == base
    ensures forall k :: |base| <= k < |MergePrefix(base, ai, n)| ==>
              MergePrefix(base, ai, n)[k].FromAi? && MergePrefix(base, ai, n)[k].ai in ai[..n]
  {
    if n > 0 {
      MergeKeepsBase(base, ai, n - 1);
      var merged := MergePrefix(base, ai, n - 1);
      assert ai[..n - 1] <= ai[..n];
      if !Overlaps(merged, ai[n - 1]) {
        assert (merged + [FromAi(ai[n - 1])])[..|base|] == merged[..|base|];
      }
    }
  }

  /** Every appended AI suggestion starts at least 10 away from every entry before it: the
      shown local suggestions and the AI suggestions appended earlier. */
  lemma {:induction false} MergeAppendsOnlyFar(base: seq<Inline>, ai: seq<AiSuggestion>, n: nat)
    requires n <= |ai|
    ensures forall k :: |base| <= k < |MergePrefix(base, ai, n)| ==>
              && MergePrefix(base, ai, n)[k].FromAi?
              && !Overlaps(MergePrefix(base, ai, n)[..k], MergePrefix(base, ai, n)[k].ai)
  {
    if n > 0 {
      MergeAppendsOnlyFar(base, ai, n - 1);
      MergeKeepsBase(base, ai, n);
      var prev := MergePrefix(base, ai, n - 1);
      var merged := MergePrefix(base, ai, n);
      if !Overlaps(prev, ai[n - 1]) {
        assert merged == prev + [FromAi(ai[n - 1])];
        forall k | |base| <= k < |merged|
          ensures merged[k].FromAi? && !Overlaps(merged[..k], merged[k].ai)
        {
          if k < |prev| {
            assert merged[..k] == prev[..k];
            assert merged[k] == prev[k];
            assert prev[k].FromAi? && !Overlaps(prev[..k], prev[k].ai);
          } else {
            assert merged[..k] == prev;
            assert merged[k] == FromAi(ai[n - 1]);
          }
        }
      }
    }
  }

  /** Every AI suggestion considered is either in the merge or within 10 of some entry of it:
      nothing is dropped unless it lies near what is shown. */
  lemma {:induction false} MergeDropsOnlyNear(base: seq<Inline>, ai: seq<AiSuggestion>, n: nat)
    requires n <= |ai|
    ensures forall j :: 0 <= j < n ==>
              FromAi(ai[j]) in MergePrefix(base, ai, n) || Overlaps(MergePrefix(base, ai, n), ai[j])
  {
    if n > 0 {
      MergeDropsOnlyNear(base, ai, n - 1);
      var prev := MergePrefix(base, ai, n - 1);
      var merged := MergePrefix(base, ai, n);
      assert |prev| <= |merged| && merged[..|prev|] == prev;
      forall j | 0 <= j < n
        ensures FromAi(ai[j]) in merged || Overlaps(merged, ai[j])
      {
        if j < n - 1 {
          if FromAi(ai[j]) in prev {
            var k :| 0 <= k < |prev| && prev[k] == FromAi(ai[j]);
            assert merged[k] == prev[k];
          } else {
            var k :| 0 <= k < |prev| && Near(StartOf(prev[k]), ai[j].startIndex);
            assert merged[k] == prev[k];
          }
        }
      }
    }
  }

  /** Without an AI function, when the heuristic declines, or when the AI call fails, the result
      is the filtered local suggestions alone. */
  lemma HybridFallsBack(text: string, ai: AiOutcome)
    requires !ShouldUseAI(text, LocalSuggestions(text)) || !ai.AiReturned?
    ensures Hybrid(text, ai) == Shown(ConvertToInline(LocalSuggestions(text)))
  {
  }

  // ---------------------------------------------------------------------------
  // Change detection

  /** The number of words of `olds` (with repetition) that occur in `news`. */
  function CommonCount(olds: seq<string>, news: set<string>): (n: nat)
    ensures n <= |olds|
  {
    if olds == [] then 0 else CommonCount(olds[..|olds| - 1], news) + (if olds[|olds| - 1] in news then 1 else 0)
  }

  /** Whether the text changed enough to analyse it again. */
  predicate SignificantChange(oldText: string, newText: string) {
    WordListsDiffer(Tokens(oldText), Tokens(newText))
  }

  /** The decision on the two word lists: 15 or more words more or fewer, or fewer than 80%
      of the longer list's length found among the new words. */
  predicate WordListsDiffer(olds: seq<string>, news: seq<string>) {
    var maxLength := if |olds| > |news| then |olds| else |news|;
    if |olds| - |news| >= 15 || |news| - |olds| >= 15 then true
    else if maxLength == 0 then false
    else (CommonCount(olds, set w | w in news) as real) / (maxLength as real) < 0.8
  }

  /** `hasSignificantChange`. */
  method HasSignificantChange(oldText: string, newText: string) returns (r: bool)
    ensures r == SignificantChange(oldText, newText)
  {
    var oldWords := Tokens(oldText);
    var newWords := Tokens(newText);
    r := CompareWordLists(oldWords, newWords);
  }

  method CompareWordLists(oldWords: seq<string>, newWords: seq<string>) returns (r: bool)
    ensures r == WordListsDiffer(oldWords, newWords)
  {
    if |oldWords| - |newWords| >= 15 || |newWords| - |oldWords| >= 15 {
      return true;
    }
    var maxLength := if |oldWords| > |newWords| then |oldWords| else |newWords|;
    if maxLength == 0 {
      return false;
    }
    var commonWords := 0;
    var newWordSet := set w | w in newWords;
    for i := 0 to |oldWords|
      invariant commonWords == CommonCount(oldWords[..i], newWordSet)
    {
      assert oldWords[..i + 1][..i] == oldWords[..i];
      if oldWords[i] in newWordSet {
        commonWords := commonWords + 1;
      }
    }
    assert oldWords[..|oldWords|] == oldWords;
    var similarity := (commonWords as real) / (maxLength as real);
    r := similarity < 0.8;
  }

  /** Every word of olds that occurs in news is counted. */
  lemma {:induction false} CommonCountAll(olds: seq<string>, news: set<string>)
    requires forall k :: 0 <= k < |olds| ==> olds[k] in news
    ensures CommonCount(olds, news) == |olds|
  {
    if olds != [] {
      CommonCountAll(olds[..|olds| - 1], news);
    }
  }

  /** Comparing a text with itself never triggers re-analysis. */
  lemma UnchangedIsNotSignificant(text: string)
    ensures !SignificantChange(text, text)
  {
    SameWordsNotDifferent(Tokens(text));
  }

  lemma SameWordsNotDifferent(words: seq<string>)
    ensures !WordListsDiffer(words, words)
  {
    var news := set w | w in words;
    CommonCountAll(words, news);
    if |words| > 0 {
      assert (|words| as real) / (|words| as real) == 1.0;
    }
  }

  /** A difference of 15 or more words always triggers re-analysis. */
  lemma LargeWordCountChange(oldText: string, newText: string)
    requires |Words(oldText)| >= |Words(newText)| + 15 || |Words(newText)| >= |Words(oldText)| + 15
    ensures SignificantChange(oldText, newText)
  {
    TokensAreWords(oldText);
    TokensAreWords(newText);
  }

  /** Two blank texts never differ significantly. */
  lemma BlankIsNotSignificant(oldText: string, newText: string)
    requires AllSpace(oldText) && AllSpace(newText)
    ensures !SignificantChange(oldText, newText)
  {
    TokensAreWords(oldText);
    TokensAreWords(newText);
    WordsEmptyIffBlank(oldText);
    WordsEmptyIffBlank(newText);
  }
}
