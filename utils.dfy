/**
 * The small client helpers: word counting and its display, reading time, truncation,
 * colour lookups, age from a birthday, and progress towards a target.
 */
module Utils {
  import opened Wrappers
  import opened Text
  import opened NumberText

  // ---------------------------------------------------------------------------
  // Words

  /** `text.trim().split(/\s+/).filter(word => word.length > 0).length`: the number of maximal
      runs of non-whitespace characters, and 0 exactly for blank text. */
  function CountWords(text: string): (n: nat)
    ensures n == |Words(text)|
    ensures n == 0 <==> AllSpace(text)
  {
    TokensAreWords(Trim(text));
    WordsTrim(text);
    WordsEmptyIffBlank(text);
    |NonEmpty(Split(Trim(text), Whitespace))|
  }

  /** Round half up of `count / unit` to tenths, for a non-negative count. */
  function RoundTenths(count: nat, unit: nat): (t: nat)
    requires unit > 0
    ensures 20 * count < (2 * t + 1) * unit
    ensures (2 * t - 1) * unit <= 20 * count
  {
    (20 * count + unit) / (2 * unit)
  }

  /** `(count / unit).toFixed(1)` followed by the suffix. */
  function Scaled(count: nat, unit: nat, suffix: char): string
    requires unit > 0
  {
    var t := RoundTenths(count, unit);
    NatToString(t / 10) + "." + [DigitChar(t % 10)] + [suffix]
  }

  /** The suffix tells the band: "M" from a million, "K" from a thousand, none below. */
  function FormatWordCount(count: int): (s: string)
    ensures |s| > 0
    ensures s[|s| - 1] == 'M' <==> count >= 1000000
    ensures s[|s| - 1] == 'K' <==> 1000 <= count < 1000000
    ensures IsDigit(s[|s| - 1]) <==> count < 1000
  {
    if count >= 1000000 then Scaled(count, 1000000, 'M')
    else if count >= 1000 then Scaled(count, 1000, 'K')
    else IntToString(count)
  }

  /** Rounding happens after scaling, so the thousands band can print "1000.0K". */
  lemma FormatWordCountRollsOver()
    ensures FormatWordCount(999999) == "1000.0K"
  {
    assert RoundTenths(999999, 1000) == 10000;
    assert NatToString(1000) == "1000" by {
      assert NatToString(1) == "1";
      assert NatToString(10) == "10";
      assert NatToString(100) == "100";
    }
  }

  /** Below a thousand, a non-negative count is printed as itself and reads back unchanged. */
  lemma FormatWordCountPlain(count: nat)
    requires count < 1000
    ensures FormatWordCount(count) == NatToString(count)
    ensures ParseInt(FormatWordCount(count)) == Some(count)
  {
    ParseIntOfNatToString(count);
  }

  // ---------------------------------------------------------------------------
  // Reading time and truncation

  /** `Math.ceil(wordCount / 250)` */
  function CalculateReadingTime(wordCount: int): (minutes: int)
    ensures 250 * (minutes - 1) < wordCount <= 250 * minutes
  {
    -((-wordCount) / 250)
  }

  lemma ReadingTimeExamples()
    ensures CalculateReadingTime(0) == 0
    ensures forall w :: 1 <= w <= 250 ==> CalculateReadingTime(w) == 1
    ensures forall w :: 251 <= w <= 500 ==> CalculateReadingTime(w) == 2
  {
  }

  /** `text.length <= maxLength ? text : text.substring(0, maxLength) + '...'`;
      `substring` treats a negative end as 0. */
  function TruncateText(text: string, maxLength: int): (r: string)
    ensures |text| <= maxLength ==> r == text
    ensures |text| > maxLength ==>
              var keep := if maxLength < 0 then 0 else maxLength;
              r == text[..keep] + "..." && |r| == keep + 3
  {
    if |text| <= maxLength then text
    else text[..if maxLength < 0 then 0 else maxLength] + "..."
  }

  /** Truncation keeps a prefix of the text and never makes the result longer than max + 3. */
  lemma TruncateTextPrefix(text: string, maxLength: nat)
    ensures |TruncateText(text, maxLength)| <= maxLength + 3
    ensures TruncateText(text, maxLength) == text
            || (|TruncateText(text, maxLength)| == maxLength + 3
                && TruncateText(text, maxLength)[..maxLength] == text[..maxLength]
                && TruncateText(text, maxLength)[maxLength..] == "...")
  {
  }

  // ---------------------------------------------------------------------------
  // Colours

  function GetProjectStatusColor(status: string): (color: string)
    ensures color == "text-gray-500" <==> status !in ["in_progress", "completed", "published"]
  {
    match status
    case "draft" => "text-gray-500"
    case "in_progress" => "text-blue-500"
    case "completed" => "text-green-500"
    case "published" => "text-purple-500"
    case _ => "text-gray-500"
  }

  function GetSuggestionSeverityColor(severity: string): (color: string)
    ensures color == "text-gray-500" <==> severity !in ["low", "medium", "high"]
  {
    match severity
    case "low" => "text-yellow-500"
    case "medium" => "text-orange-500"
    case "high" => "text-red-500"
    case _ => "text-gray-500"
  }

  // ---------------------------------------------------------------------------
  // Age

  /** A calendar date as year, month and day of month. */
  datatype Ymd = Ymd(year: int, month: int, day: int)

  predicate NotAfter(a: Ymd, b: Ymd) {
    a.year < b.year
    || (a.year == b.year && (a.month < b.month || (a.month == b.month && a.day <= b.day)))
  }

  /** `calculateAge(birthday)` with `new Date(birthday)` given as `parsed` (None when invalid)
      and the current date as `today`. */
  function CalculateAge(birthday: string, parsed: Option<Ymd>, today: Ymd): (age: Option<int>)
    ensures age.None? <==> birthday == "" || parsed.None?
  {
    if birthday == "" then None
    else if parsed.None? then None
    else
      var b := parsed.value;
      var years := today.year - b.year;
      var monthDiff := today.month - b.month;
      if monthDiff < 0 || (monthDiff == 0 && today.day < b.day) then Some(years - 1) else Some(years)
  }

  /** The age is the number of anniversaries of the birthday that have come by today. */
  lemma AgeCountsAnniversaries(birthday: string, b: Ymd, today: Ymd)
    requires birthday != ""
    ensures var age := CalculateAge(birthday, Some(b), today).value;
            NotAfter(Ymd(b.year + age, b.month, b.day), today)
            && !NotAfter(Ymd(b.year + age + 1, b.month, b.day), today)
  {
  }

  /** Nobody born on or before today has a negative age. */
  lemma AgeNonNegative(birthday: string, b: Ymd, today: Ymd)
    requires birthday != "" && NotAfter(b, today)
    ensures CalculateAge(birthday, Some(b), today).value >= 0
  {
  }

  // ---------------------------------------------------------------------------
  // Progress

  /** `target <= 0 ? 0 : Math.min((current / target) * 100, 100)` */
  function CalculateProgress(current: real, target: real): (percent: real)
    ensures percent <= 100.0
    ensures target <= 0.0 ==> percent == 0.0
    ensures target > 0.0 && current >= 0.0 ==> percent >= 0.0
  {
    if target <= 0.0 then 0.0
    else
      var raw := (current / target) * 100.0;
      if raw < 100.0 then raw else 100.0
  }

  /** Full progress exactly when a positive target is reached. */
  lemma ProgressFull(current: real, target: real)
    ensures CalculateProgress(current, target) == 100.0 <==> target > 0.0 && current >= target
  {
    if target > 0.0 {
      assert (current / target) * 100.0 >= 100.0 <==> current >= target by {
        assert current / target >= 1.0 <==> current >= target;
      }
    }
  }

  function GetProgressColor(percentage: real): (color: string)
    ensures color in ProgressBands
    ensures color == ProgressBands[4] <==> percentage >= 100.0
    ensures color == ProgressBands[0] <==> percentage < 25.0
  {
    if percentage >= 100.0 then "bg-green-500"
    else if percentage >= 75.0 then "bg-emerald-500"
    else if percentage >= 50.0 then "bg-blue-500"
    else if percentage >= 25.0 then "bg-amber-500"
    else "bg-slate-400"
  }

  /** The bands in order, lowest first. */
  const ProgressBands := ["bg-slate-400", "bg-amber-500", "bg-blue-500", "bg-emerald-500", "bg-green-500"]

  /** The colour is the band of the largest threshold 0, 25, 50, 75, 100 that the percentage
      reaches (everything below 25 shares the first band). */
  lemma ProgressColorBand(percentage: real)
    ensures var k := if percentage < 25.0 then 0 else if percentage >= 100.0 then 4
                     else (percentage / 25.0).Floor;
            0 <= k < 5 && GetProgressColor(percentage) == ProgressBands[k]
  {
    if 25.0 <= percentage < 100.0 {
      var k := (percentage / 25.0).Floor;
      assert 1 <= k <= 3;
      assert (k as real) * 25.0 <= percentage < (k as real + 1.0) * 25.0;
    }
  }

  /** A higher percentage never gets a lower band. */
  lemma ProgressColorMonotone(p: real, q: real)
    requires p <= q
    ensures BandIndex(GetProgressColor(p)) <= BandIndex(GetProgressColor(q))
  {
  }

  function BandIndex(color: string): nat {
    if color == "bg-green-500" then 4
    else if color == "bg-emerald-500" then 3
    else if color == "bg-blue-500" then 2
    else if color == "bg-amber-500" then 1
    else 0
  }

  /** Green shows exactly when a positive target is reached. */
  lemma GreenExactlyWhenReached(current: real, target: real)
    ensures GetProgressColor(CalculateProgress(current, target)) == "bg-green-500"
            <==> target > 0.0 && current >= target
  {
    ProgressFull(current, target);
  }
}
