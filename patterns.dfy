/**
 * The fragment of JavaScript regular expressions that the analysers use, with the
 * flags `g` and `i`: literal text compared case-insensitively, the greedy classes
 * `\s+` and `\w+` (optionally captured), the word boundary `\b` and an alternation
 * of literals.  `Match` is a backtracking matcher that tries greedy runs longest
 * first and alternatives left to right, which is the order a JavaScript engine
 * explores; `Exec` is `RegExp.prototype.exec` from `lastIndex`, and `Scan` the
 * `while ((match = regex.exec(text)) !== null)` loop as a value.
 */
module Patterns {
  import opened Wrappers
  import opened Text

  datatype Class = SpaceClass | WordClass

  datatype Piece =
    | Lit(text: string)                     // literal characters
    | Plus(cls: Class, capture: bool)       // `\s+` or `\w+`, greedy; `(\w+)` when captured
    | Boundary                              // `\b`
    | OneOf(alts: seq<string>)              // `(a|b|...)` of literals

  type Pattern = seq<Piece>

  /** A successful match: `match.index`, `match.index + match[0].length`, and `match[1]`. */
  datatype Match = Match(start: nat, end: nat, group: Option<string>)

  /** What matching a pattern from a position yields: where it stopped, and the capture. */
  datatype Tail = Tail(end: nat, group: Option<string>)

  predicate InClass(c: char, k: Class) {
    match k
    case SpaceClass => IsSpace(c)
    case WordClass => IsWordChar(c)
  }

  /** `\b` at position i. */
  predicate BoundaryAt(s: string, i: nat)
    requires i <= |s|
  {
    (i > 0 && IsWordChar(s[i - 1])) != (i < |s| && IsWordChar(s[i]))
  }

  /** The literal occurs at i, comparing characters case-insensitively (ASCII folding). */
  predicate LitAt(s: string, i: nat, lit: string) {
    i + |lit| <= |s| && Lower(s[i..i + |lit|]) == Lower(lit)
  }

  /** The end of the maximal run of the class starting at i. */
  function RunEnd(s: string, k: Class, i: nat): (j: nat)
    requires i <= |s|
    ensures i <= j <= |s|
    ensures forall m :: i <= m < j ==> InClass(s[m], k)
    ensures j < |s| ==> !InClass(s[j], k)
    decreases |s| - i
  {
    if i == |s| || !InClass(s[i], k) then i else RunEnd(s, k, i + 1)
  }

  function MinAlt(alts: seq<string>): nat {
    if alts == [] then 0
    else if |alts| == 1 then |alts[0]|
    else var m := MinAlt(alts[1..]); if |alts[0]| < m then |alts[0]| else m
  }

  /** The fewest characters any match of the pattern consumes. */
  function MinLen(p: Pattern): nat {
    if p == [] then 0
    else
      (match p[0]
       case Lit(t) => |t|
       case Plus(_, _) => 1
       case Boundary => 0
       case OneOf(alts) => MinAlt(alts))
      + MinLen(p[1..])
  }

  lemma {:induction false} MinAltLe(alts: seq<string>, k: nat)
    requires k < |alts|
    ensures MinAlt(alts) <= |alts[k]|
  {
    if |alts| > 1 && k > 0 {
      MinAltLe(alts[1..], k - 1);
    }
  }

  /** Matching the pattern at position i, anchored there; on success, where the match ends
      and what the group captured.  The capture of a later piece wins, as there is at most
      one group in every pattern of the catalogue. */
  function MatchAt(s: string, i: nat, p: Pattern): (r: Option<Tail>)
    requires i <= |s|
    ensures r.Some? ==> i + MinLen(p) <= r.value.end <= |s|
    decreases |p|, 2, 0
  {
    if p == [] then Some(Tail(i, None))
    else
      match p[0]
      case Lit(t) =>
        if LitAt(s, i, t) then MatchAt(s, i + |t|, p[1..]) else None
      case Boundary =>
        if BoundaryAt(s, i) then MatchAt(s, i, p[1..]) else None
      case Plus(k, capture) =>
        var e := RunEnd(s, k, i);
        if e == i then None else TryRun(s, i, e, capture, p[1..])
      case OneOf(alts) =>
        TryAlts(s, i, alts, p[1..])
  }

  /** The greedy `+`: try the run [i, k) for k = longest, then shorter, down to one character. */
  function TryRun(s: string, i: nat, k: nat, capture: bool, rest: Pattern): (r: Option<Tail>)
    requires i < k <= |s|
    ensures r.Some? ==> i + 1 + MinLen(rest) <= r.value.end <= |s|
    decreases |rest| + 1, 1, k - i
  {
    match MatchAt(s, k, rest)
    case Some(t) =>
      Some(if capture && t.group.None? then Tail(t.end, Some(s[i..k])) else t)
    case None =>
      if k - 1 == i then None else TryRun(s, i, k - 1, capture, rest)
  }

  /** An alternation of literals: the first alternative after which the rest matches. */
  function TryAlts(s: string, i: nat, alts: seq<string>, rest: Pattern): (r: Option<Tail>)
    requires i <= |s|
    ensures r.Some? ==> i + MinAlt(alts) + MinLen(rest) <= r.value.end <= |s|
    decreases |rest| + 1, 1, |alts|
  {
    if alts == [] then None
    else
      var here :=
        if LitAt(s, i, alts[0]) then MatchAt(s, i + |alts[0]|, rest) else None;
      if here.Some? then
        MinAltLe(alts, 0);
        here
      else
        var r := TryAlts(s, i, alts[1..], rest);
        if r.Some? && |alts| > 1 then
          assert MinAlt(alts) <= MinAlt(alts[1..]);
          r
        else r
  }

  /** `regex.exec(text)` with `lastIndex == from`: the leftmost match starting at or after `from`. */
  function Exec(s: string, p: Pattern, from: nat): (r: Option<Match>)
    requires from <= |s|
    ensures r.Some? ==> from <= r.value.start && r.value.start + MinLen(p) <= r.value.end <= |s|
    decreases |s| - from
  {
    match MatchAt(s, from, p)
    case Some(t) => Some(Match(from, t.end, t.group))
    case None => if from == |s| then None else Exec(s, p, from + 1)
  }

  /** All matches of a global regular expression, each search resuming where the previous
      match ended (`lastIndex`). */
  function Scan(s: string, p: Pattern, from: nat): (ms: seq<Match>)
    requires from <= |s|
    requires MinLen(p) > 0
    ensures forall k :: 0 <= k < |ms| ==> from <= ms[k].start < ms[k].end <= |s|
    decreases |s| - from
  {
    match Exec(s, p, from)
    case None => []
    case Some(m) => [m] + Scan(s, p, m.end)
  }

  /** Matches that are non-empty spans of the text. */
  predicate ValidMatches(s: string, ms: seq<Match>) {
    forall k :: 0 <= k < |ms| ==> ms[k].start < ms[k].end <= |s|
  }

  /** One step of the scan: the first match, then the scan from where it ended. */
  lemma ScanUnfold(s: string, p: Pattern, from: nat)
    requires from <= |s| && MinLen(p) > 0 && Exec(s, p, from).Some?
    ensures Scan(s, p, from) == [Exec(s, p, from).value] + Scan(s, p, Exec(s, p, from).value.end)
  {
  }

  // ---------------------------------------------------------------------------

  /** The matches of one scan are disjoint and in increasing order of position. */
  lemma {:induction false} ScanOrdered(s: string, p: Pattern, from: nat)
    requires from <= |s| && MinLen(p) > 0
    ensures forall k :: 0 <= k < |Scan(s, p, from)| - 1 ==>
              Scan(s, p, from)[k].end <= Scan(s, p, from)[k + 1].start
    decreases |s| - from
  {
    match Exec(s, p, from)
    case None =>
    case Some(m) =>
      ScanOrdered(s, p, m.end);
      var rest := Scan(s, p, m.end);
      assert Scan(s, p, from) == [m] + rest;
      forall k | 0 <= k < |Scan(s, p, from)| - 1
        ensures Scan(s, p, from)[k].end <= Scan(s, p, from)[k + 1].start
      {
        if k > 0 { assert Scan(s, p, from)[k] == rest[k - 1]; }
      }
  }

  /** Nothing between `from` and a reported match start matches: `exec` finds the leftmost one. */
  lemma {:induction false} ExecLeftmost(s: string, p: Pattern, from: nat, q: nat)
    requires from <= q <= |s|
    requires Exec(s, p, from).Some? ==> q < Exec(s, p, from).value.start
    ensures MatchAt(s, q, p).None?
    decreases |s| - from
  {
    if from < q {
      ExecLeftmost(s, p, from + 1, q);
    }
  }

  /** A trailing captured `\w+` captures exactly the word characters just before the end of the match. */
  lemma {:induction false} TrailingCapture(s: string, k: nat)
    requires k <= |s|
    requires MatchAt(s, k, [Plus(WordClass, true)]).Some?
    ensures var t := MatchAt(s, k, [Plus(WordClass, true)]).value;
            k < t.end && t.group == Some(s[k..t.end])
            && (forall m :: k <= m < t.end ==> IsWordChar(s[m]))
            && (t.end < |s| ==> !IsWordChar(s[t.end]))
  {
    var e := RunEnd(s, WordClass, k);
    assert [Plus(WordClass, true)][1..] == [];
    assert MatchAt(s, e, []) == Some(Tail(e, None));
  }
  /** Every scanned match is a match of the pattern at its start. */
  lemma {:induction false} ScanMatches(s: string, p: Pattern, from: nat, idx: nat)
    requires from <= |s| && MinLen(p) > 0
    requires idx < |Scan(s, p, from)|
    ensures MatchAt(s, Scan(s, p, from)[idx].start, p)
            == Some(Tail(Scan(s, p, from)[idx].end, Scan(s, p, from)[idx].group))
    decreases |s| - from
  {
    ExecMatches(s, p, from);
    if idx > 0 {
      ScanMatches(s, p, Exec(s, p, from).value.end, idx - 1);
    }
  }

  lemma {:induction false} ExecMatches(s: string, p: Pattern, from: nat)
    requires from <= |s|
    requires Exec(s, p, from).Some?
    ensures var m := Exec(s, p, from).value;
            MatchAt(s, m.start, p) == Some(Tail(m.end, m.group))
    decreases |s| - from
  {
    if MatchAt(s, from, p).None? {
      ExecMatches(s, p, from + 1);
    }
  }

  /** A successful greedy run ends where the rest of the pattern matched from some split point. */
  lemma {:induction false} TryRunSplit(s: string, i: nat, k: nat, capture: bool, rest: Pattern)
    requires i < k <= |s|
    requires TryRun(s, i, k, capture, rest).Some?
    ensures exists j :: i < j <= k && MatchAt(s, j, rest).Some?
                        && MatchAt(s, j, rest).value.end == TryRun(s, i, k, capture, rest).value.end
    decreases k - i
  {
    if MatchAt(s, k, rest).None? {
      TryRunSplit(s, i, k - 1, capture, rest);
    }
  }

  /** A successful alternation matched one of its literals, then the rest of the pattern. */
  lemma {:induction false} TryAltsSplit(s: string, i: nat, alts: seq<string>, rest: Pattern)
    requires i <= |s|
    requires TryAlts(s, i, alts, rest).Some?
    ensures exists a :: ExistsAlt(s, i, alts, rest, TryAlts(s, i, alts, rest).value.end, a)
    decreases |alts|
  {
    var end := TryAlts(s, i, alts, rest).value.end;
    if LitAt(s, i, alts[0]) && MatchAt(s, i + |alts[0]|, rest).Some? {
      TryAltsHead(s, i, alts, rest);
    } else {
      TryAltsSkip(s, i, alts, rest);
      TryAltsSplit(s, i, alts[1..], rest);
      var a :| ExistsAlt(s, i, alts[1..], rest, end, a);
      ExistsAltShift(s, i, alts, rest, end, a);
    }
  }

  lemma TryAltsHead(s: string, i: nat, alts: seq<string>, rest: Pattern)
    requires i <= |s| && alts != []
    requires LitAt(s, i, alts[0]) && MatchAt(s, i + |alts[0]|, rest).Some?
    ensures TryAlts(s, i, alts, rest).Some?
    ensures ExistsAlt(s, i, alts, rest, TryAlts(s, i, alts, rest).value.end, 0)
  {
  }

  lemma TryAltsSkip(s: string, i: nat, alts: seq<string>, rest: Pattern)
    requires i <= |s| && alts != []
    requires !(LitAt(s, i, alts[0]) && MatchAt(s, i + |alts[0]|, rest).Some?)
    ensures TryAlts(s, i, alts, rest) == TryAlts(s, i, alts[1..], rest)
  {
  }

  lemma ExistsAltShift(s: string, i: nat, alts: seq<string>, rest: Pattern, end: nat, a: int)
    requires i <= |s| && alts != []
    requires ExistsAlt(s, i, alts[1..], rest, end, a)
    ensures ExistsAlt(s, i, alts, rest, end, a + 1)
  {
    assert alts[1..][a] == alts[a + 1];
  }

  predicate ExistsAlt(s: string, i: nat, alts: seq<string>, rest: Pattern, end: nat, a: int)
    requires i <= |s|
  {
    0 <= a < |alts| && LitAt(s, i, alts[a])
    && MatchAt(s, i + |alts[a]|, rest).Some?
    && MatchAt(s, i + |alts[a]|, rest).value.end == end
  }

  /** Anatomy of a match that begins with a greedy run: the run [i, j), then the rest from j. */
  lemma PlusSplit(s: string, i: nat, p: Pattern)
    requires i <= |s| && |p| > 0 && p[0].Plus?
    requires MatchAt(s, i, p).Some?
    ensures exists j :: RunThenRest(s, i, j, p, MatchAt(s, i, p).value.end)
  {
    var e := RunEnd(s, p[0].cls, i);
    TryRunSplit(s, i, e, p[0].capture, p[1..]);
    var j :| i < j <= e && MatchAt(s, j, p[1..]).Some?
             && MatchAt(s, j, p[1..]).value.end == TryRun(s, i, e, p[0].capture, p[1..]).value.end;
    assert RunThenRest(s, i, j, p, MatchAt(s, i, p).value.end);
  }

  predicate RunThenRest(s: string, i: nat, j: nat, p: Pattern, end: nat)
    requires |p| > 0 && p[0].Plus?
  {
    i < j <= |s| && (forall m :: i <= m < j ==> InClass(s[m], p[0].cls))
    && MatchAt(s, j, p[1..]).Some? && MatchAt(s, j, p[1..]).value.end == end
  }

  /** A literal followed by a word boundary ends the match right after the literal. */
  lemma LitThenBoundary(s: string, i: nat, lit: string, end: nat)
    requires i <= |s|
    requires MatchAt(s, i, [Lit(lit), Boundary]).Some?
    requires MatchAt(s, i, [Lit(lit), Boundary]).value.end == end
    ensures end == i + |lit| <= |s|
    ensures LitAt(s, end - |lit|, lit) && BoundaryAt(s, end)
  {
    assert [Lit(lit), Boundary][1..] == [Boundary];
    assert [Boundary][1..] == [];
  }

  /** [i, m) is a non-empty run of class `k1`, and [m, end - tail) a non-empty run of class
      `k2`: the two runs stop `tail` characters before `end`. */
  predicate TwoRuns(s: string, i: nat, m: nat, end: nat, tail: nat, k1: Class, k2: Class) {
    && i < m && m + tail < end <= |s|
    && (forall x :: i <= x < m ==> InClass(s[x], k1))
    && (forall x :: m <= x < end - tail ==> InClass(s[x], k2))
  }

  /** `X+Y+<lit>\b`: two greedy runs of at least one character each, then the literal
      just before a word boundary that ends the match. */
  lemma {:induction false} RunsThenLit(s: string, j: nat, q: Pattern, lit: string, end: nat)
    requires j <= |s|
    requires |q| == 4 && q[0].Plus? && q[1].Plus? && q[2] == Lit(lit) && q[3] == Boundary
    requires MatchAt(s, j, q).Some? && MatchAt(s, j, q).value.end == end
    ensures j + 2 + |lit| <= end <= |s|
    ensures LitAt(s, end - |lit|, lit) && BoundaryAt(s, end)
    ensures exists m :: TwoRuns(s, j, m, end, |lit|, q[0].cls, q[1].cls)
  {
    PlusSplit(s, j, q);
    var j2 :| RunThenRest(s, j, j2, q, end);
    var q3 := q[1..];
    PlusSplit(s, j2, q3);
    var j3 :| RunThenRest(s, j2, j3, q3, end);
    assert q3[1..] == [Lit(lit), Boundary];
    LitThenBoundary(s, j3, lit, end);
    assert TwoRuns(s, j, j2, end, |lit|, q[0].cls, q[1].cls);
  }
}
