/**
 * Character classes and the string operations of JavaScript that the application
 * relies on: `\w`, `\s`, `String.prototype.trim`, `split` on a run of separators,
 * and the "split on whitespace, drop empty pieces" word count used throughout.
 */
module Text {

  /** `\w` of a JavaScript regular expression without the `u` flag: ASCII letters, digits and `_`. */
  predicate IsWordChar(c: char) {
    ('a' <= c <= 'z') || ('A' <= c <= 'Z') || ('0' <= c <= '9') || c == '_'
  }

  /** `\s` of a JavaScript regular expression; `trim` removes exactly the same code points
      (WhiteSpace and LineTerminator of ECMAScript). */
  predicate IsSpace(c: char) {
    var n := c as int;
    n == 0x09 || n == 0x0A || n == 0x0B || n == 0x0C || n == 0x0D || n == 0x20 || n == 0xA0
    || n == 0x1680 || (0x2000 <= n <= 0x200A) || n == 0x2028 || n == 0x2029 || n == 0x202F
    || n == 0x205F || n == 0x3000 || n == 0xFEFF
  }

  /** The class `[.!?]` that ends a sentence in the readability estimate. */
  predicate IsSentenceEnd(c: char) {
    c == '.' || c == '!' || c == '?'
  }

  /** ASCII lower-casing of one character. */
  function LowerChar(c: char): (l: char)
    ensures IsWordChar(l) == IsWordChar(c)
    ensures 'A' <= l <= 'Z' ==> false
  {
    if 'A' <= c <= 'Z' then (c as int + 32) as char else c
  }

  function Lower(s: string): (r: string)
    ensures |r| == |s|
    ensures forall i :: 0 <= i < |s| ==> r[i] == LowerChar(s[i])
  {
    if s == [] then [] else [LowerChar(s[0])] + Lower(s[1..])
  }

  predicate AllSpace(s: string) {
    forall i :: 0 <= i < |s| ==> IsSpace(s[i])
  }

  predicate AllWord(s: string) {
    forall i :: 0 <= i < |s| ==> IsWordChar(s[i])
  }

  /** The separators that `split(/\s+/)` and `split(/[.!?]+/)` use. */
  datatype Separator = Whitespace | SentenceEnd

  predicate IsSep(c: char, k: Separator) {
    match k
    case Whitespace => IsSpace(c)
    case SentenceEnd => IsSentenceEnd(c)
  }

  /** The first index at or after `i` that holds a separator, or `|s|`. */
  function NextSep(s: string, k: Separator, i: nat): (j: nat)
    requires i <= |s|
    ensures i <= j <= |s|
    ensures j < |s| ==> IsSep(s[j], k)
    ensures forall m :: i <= m < j ==> !IsSep(s[m], k)
    decreases |s| - i
  {
    if i == |s| || IsSep(s[i], k) then i else NextSep(s, k, i + 1)
  }

  /** The end of the run of separators that starts at `i`. */
  function SepRunEnd(s: string, k: Separator, i: nat): (j: nat)
    requires i <= |s|
    ensures i <= j <= |s|
    ensures j < |s| ==> !IsSep(s[j], k)
    ensures forall m :: i <= m < j ==> IsSep(s[m], k)
    decreases |s| - i
  {
    if i == |s| || !IsSep(s[i], k) then i else SepRunEnd(s, k, i + 1)
  }

  /** `s.split(/X+/)` for the separator class X: the pieces between maximal separator runs,
      with an empty piece before a leading run and after a trailing run ("" splits to [""]). */
  function Split(s: string, k: Separator): (pieces: seq<string>)
    ensures |pieces| >= 1
    ensures forall p, m :: p in pieces && 0 <= m < |p| ==> !IsSep(p[m], k)
    ensures |pieces| == 1 <==> forall m :: 0 <= m < |s| ==> !IsSep(s[m], k)
    decreases |s|
  {
    var i := NextSep(s, k, 0);
    if i == |s| then [s] else [s[..i]] + Split(s[SepRunEnd(s, k, i)..], k)
  }

  /** `.filter(w => w.length > 0)` */
  function NonEmpty(xs: seq<string>): (r: seq<string>)
    ensures |r| <= |xs|
    ensures forall i :: 0 <= i < |r| ==> r[i] != []
  {
    if xs == [] then [] else (if xs[0] == [] then [] else [xs[0]]) + NonEmpty(xs[1..])
  }

  /** `s.split(/\s+/).filter(w => w.length > 0)`: the tokens of the text. */
  function Tokens(s: string): seq<string> {
    NonEmpty(Split(s, Whitespace))
  }

  /** The number of whitespace-delimited tokens, as `split(/\s+/).filter(...)`.length computes it. */
  function WordCount(s: string): nat {
    |Tokens(s)|
  }

  /** Reference definition: the maximal runs of non-whitespace characters, left to right. */
  function Words(s: string): (ws: seq<string>)
    decreases |s|
  {
    if s == [] then []
    else if IsSpace(s[0]) then Words(s[1..])
    else
      var e := NextSep(s, Whitespace, 0);
      [s[..e]] + Words(s[e..])
  }

  /** `String.prototype.trim` */
  function FirstNonSpace(s: string): (i: nat)
    ensures i <= |s|
    ensures forall m :: 0 <= m < i ==> IsSpace(s[m])
    ensures i < |s| ==> !IsSpace(s[i])
  {
    SepRunEnd(s, Whitespace, 0)
  }

  function LastNonSpaceEnd(s: string): (j: nat)
    ensures j <= |s|
    ensures forall m :: j <= m < |s| ==> IsSpace(s[m])
    ensures j > 0 ==> !IsSpace(s[j - 1])
    decreases |s|
  {
    if s == [] || !IsSpace(s[|s| - 1]) then |s| else LastNonSpaceEnd(s[..|s| - 1])
  }

  function Trim(s: string): (t: string)
    ensures t != [] ==> !IsSpace(t[0]) && !IsSpace(t[|t| - 1])
    ensures exists i :: TrimmedAt(s, t, i)
  {
    var f := FirstNonSpace(s);
    var a := s[f..];
    var t := a[..LastNonSpaceEnd(a)];
    assert TrimmedAt(s, t, f);
    t
  }

  /** `t` is the slice of `s` from `i` with only whitespace around it. */
  predicate TrimmedAt(s: string, t: string, i: nat) {
    && i + |t| <= |s|
    && t == s[i..i + |t|]
    && AllSpace(s[..i])
    && AllSpace(s[i + |t|..])
  }

  // ---------------------------------------------------------------------------
  // Lemmas relating the JavaScript idioms to the reference definition `Words`

  lemma {:induction false} NonEmptyAppend(a: seq<string>, b: seq<string>)
    ensures NonEmpty(a + b) == NonEmpty(a) + NonEmpty(b)
    decreases |a|
  {
    if a == [] {
      assert a + b == b;
    } else {
      assert (a + b)[1..] == a[1..] + b;
      NonEmptyAppend(a[1..], b);
    }
  }

  /** Skipping whitespace does not change the word runs. */
  lemma {:induction false} WordsSkipSpaces(s: string, i: nat, j: nat)
    requires i <= j <= |s|
    requires forall m :: i <= m < j ==> IsSpace(s[m])
    ensures Words(s[i..]) == Words(s[j..])
    decreases j - i
  {
    if i < j {
      assert s[i..][1..] == s[i + 1..];
      WordsSkipSpaces(s, i + 1, j);
    }
  }

  /** Every word run is non-empty and contains no whitespace. */
  lemma {:induction false} WordsShape(s: string)
    ensures forall w :: w in Words(s) ==> w != [] && forall m :: 0 <= m < |w| ==> !IsSpace(w[m])
    decreases |s|
  {
    if s == [] {
    } else if IsSpace(s[0]) {
      WordsShape(s[1..]);
    } else {
      var e := NextSep(s, Whitespace, 0);
      WordsShape(s[e..]);
    }
  }

  /** A text has no word runs exactly when it is all whitespace. */
  lemma {:induction false} WordsEmptyIffBlank(s: string)
    ensures Words(s) == [] <==> AllSpace(s)
    decreases |s|
  {
    if s != [] {
      if IsSpace(s[0]) {
        WordsEmptyIffBlank(s[1..]);
        assert AllSpace(s) <==> AllSpace(s[1..]) by {
          if AllSpace(s[1..]) {
            forall m | 0 <= m < |s| ensures IsSpace(s[m]) {
              if m > 0 { assert s[m] == s[1..][m - 1]; }
            }
          }
        }
      }
    }
  }

  /** The JavaScript idiom `split(/\s+/).filter(nonempty)` yields exactly the word runs. */
  lemma {:induction false} TokensAreWords(s: string)
    ensures Tokens(s) == Words(s)
    decreases |s|
  {
    var i := NextSep(s, Whitespace, 0);
    if i == |s| {
      if s != [] {
        assert s[..i] == s;
        assert s[i..] == [];
      }
    } else {
      var j := SepRunEnd(s, Whitespace, i);
      var rest := s[j..];
      assert Split(s, Whitespace) == [s[..i]] + Split(rest, Whitespace);
      NonEmptyAppend([s[..i]], Split(rest, Whitespace));
      TokensAreWords(rest);
      WordsSkipSpaces(s, i, j);
      if i > 0 {
        assert NonEmpty([s[..i]]) == [s[..i]];
      } else {
        assert NonEmpty([s[..i]]) == [];
        assert s[0..] == s;
      }
    }
  }

  /** Appending whitespace does not change the word runs. */
  lemma {:induction false} WordsAppendSpaces(s: string, sp: string)
    requires AllSpace(sp)
    ensures Words(s + sp) == Words(s)
    decreases |s|
  {
    if s == [] {
      assert s + sp == sp;
      WordsEmptyIffBlank(sp);
    } else if IsSpace(s[0]) {
      assert (s + sp)[1..] == s[1..] + sp;
      WordsAppendSpaces(s[1..], sp);
    } else {
      var e := NextSep(s, Whitespace, 0);
      var e' := NextSep(s + sp, Whitespace, 0);
      assert e' == e by {
        if e < |s| {
          assert (s + sp)[e] == s[e];
          forall m | 0 <= m < e ensures !IsSep((s + sp)[m], Whitespace) {
            assert (s + sp)[m] == s[m];
          }
          NextSepIsFirst(s + sp, e);
        } else {
          forall m | 0 <= m < e ensures !IsSep((s + sp)[m], Whitespace) {
            assert (s + sp)[m] == s[m];
          }
          if sp != [] {
            assert (s + sp)[e] == sp[0];
          }
          NextSepIsFirst(s + sp, e);
        }
      }
      assert (s + sp)[..e] == s[..e];
      assert (s + sp)[e..] == s[e..] + sp;
      WordsAppendSpaces(s[e..], sp);
    }
  }

  lemma {:induction false} NextSepIsFirst(s: string, e: nat)
    requires e <= |s|
    requires forall m :: 0 <= m < e ==> !IsSep(s[m], Whitespace)
    requires e < |s| ==> IsSep(s[e], Whitespace)
    ensures NextSep(s, Whitespace, 0) == e
  {
  }

  /** Trimming does not change the word runs. */
  lemma WordsTrim(s: string)
    ensures Words(Trim(s)) == Words(s)
  {
    var i := FirstNonSpace(s);
    var a := s[i..];
    WordsSkipSpaces(s, 0, i);
    assert s[0..] == s;
    var j := LastNonSpaceEnd(a);
    assert a == a[..j] + a[j..];
    assert AllSpace(a[j..]) by {
      forall m | 0 <= m < |a[j..]| ensures IsSpace(a[j..][m]) {
        assert a[j..][m] == a[j + m];
      }
    }
    WordsAppendSpaces(a[..j], a[j..]);
  }

  /** A text without leading or trailing whitespace splits into non-empty pieces only. */
  lemma {:induction false} SplitTrimmedNoEmpty(t: string)
    requires t != [] && !IsSpace(t[0]) && !IsSpace(t[|t| - 1])
    ensures NonEmpty(Split(t, Whitespace)) == Split(t, Whitespace)
    decreases |t|
  {
    var i := NextSep(t, Whitespace, 0);
    if i < |t| {
      var j := SepRunEnd(t, Whitespace, i);
      assert j < |t|;
      var rest := t[j..];
      assert rest[|rest| - 1] == t[|t| - 1];
      SplitTrimmedNoEmpty(rest);
      NonEmptyAppend([t[..i]], Split(rest, Whitespace));
      assert t[..i] != [] by { assert i > 0; }
      assert NonEmpty([t[..i]]) == [t[..i]];
    }
  }

  /** `text.trim().split(/\s+/).length` is the number of word runs for non-blank text, and 1 for blank text. */
  lemma TrimSplitLength(s: string)
    ensures |Split(Trim(s), Whitespace)| == if AllSpace(s) then 1 else |Words(s)|
  {
    WordsTrim(s);
    var t := Trim(s);
    WordsEmptyIffBlank(s);
    if t == [] {
      assert Split(t, Whitespace) == [[]];
    } else {
      SplitTrimmedNoEmpty(t);
      TokensAreWords(t);
    }
  }

  /** `!text.trim()` holds exactly for whitespace-only text. */
  lemma TrimEmptyIffBlank(s: string)
    ensures Trim(s) == [] <==> AllSpace(s)
  {
    WordsTrim(s);
    WordsEmptyIffBlank(s);
    WordsEmptyIffBlank(Trim(s));
  }
}
