/**
 * Score extraction in the grade-answer handler (server.js, lines 117-118):
 *
 *   feedback.match(/\b(\d{1,3})[\/\s]*100/)  then  parseInt(group 1), or 70 when nothing matches
 *
 * The pattern is matched as ECMAScript regular expressions are (ECMA-262, section 22.2):
 * every start position is tried from left to right; at a start position the assertion `\b`
 * must hold, `\d{1,3}` greedily takes as many ASCII digits as it can (at most three) and gives
 * them back one at a time when the rest fails, and `[\/\s]*` greedily takes the run of
 * slashes and white space in front of the literal `100`.
 *
 * `Search` and its helpers follow that procedure; `MatchesAt` and `IsFirstMatch` say
 * declaratively what a match is and which one wins, and the lemmas connect the two.
 */
module ScoreExtraction {
  import opened Wrappers

  /** The score reported when the feedback holds no match. */
  const DefaultScore := 70

  /** `\d`: an ASCII decimal digit. */
  predicate IsDigit(c: char) {
    '0' <= c <= '9'
  }

  /** A character of `\w`, the ASCII word characters that `\b` looks at. */
  predicate IsWordChar(c: char) {
    'a' <= c <= 'z' || 'A' <= c <= 'Z' || IsDigit(c) || c == '_'
  }

  /**
   * `\s`: the ECMAScript WhiteSpace and LineTerminator code points: tab, line feed, line
   * tabulation, form feed, carriage return, the byte order mark and the Unicode space
   * separators (category Zs), line separator and paragraph separator.
   */
  predicate IsWhiteSpace(c: char) {
    c == '\t' || c == '\n' || c == '\U{B}' || c == '\U{C}' || c == '\r' || c == ' '
    || c == '\U{A0}' || c == '\U{1680}' || '\U{2000}' <= c <= '\U{200A}'
    || c == '\U{2028}' || c == '\U{2029}' || c == '\U{202F}' || c == '\U{205F}'
    || c == '\U{3000}' || c == '\U{FEFF}'
  }

  /** The class `[\/\s]`. */
  predicate IsSeparator(c: char) {
    c == '/' || IsWhiteSpace(c)
  }

  /** Whether the character at position `i` is a word character; positions outside `s` are not. */
  predicate WordAt(s: string, i: int) {
    0 <= i < |s| && IsWordChar(s[i])
  }

  /** The assertion `\b` at position `i` (between `s[i-1]` and `s[i]`). */
  predicate AtWordBoundary(s: string, i: int) {
    WordAt(s, i - 1) != WordAt(s, i)
  }

  /** The `k` characters from position `i` on exist and are all digits. */
  predicate DigitsAt(s: string, i: nat, k: nat) {
    i + k <= |s| && forall t :: i <= t < i + k ==> IsDigit(s[t])
  }

  /** The characters from position `p` up to `q` exist and are all separators. */
  predicate SeparatorsBetween(s: string, p: nat, q: nat) {
    p <= q <= |s| && forall t :: p <= t < q ==> IsSeparator(s[t])
  }

  /** The literal `100` starts at position `q`. */
  predicate HundredAt(s: string, q: nat) {
    q + 3 <= |s| && s[q] == '1' && s[q + 1] == '0' && s[q + 2] == '0'
  }

  /** `[\/\s]*100` can match starting at position `p`. */
  ghost predicate TailMatches(s: string, p: nat) {
    exists q: nat :: SeparatorsBetween(s, p, q) && HundredAt(s, q)
  }

  /** The whole pattern matches at start position `i` with a group of `k` digits. */
  ghost predicate MatchesAt(s: string, i: nat, k: nat) {
    1 <= k <= 3 && AtWordBoundary(s, i) && DigitsAt(s, i, k) && TailMatches(s, i + k)
  }

  /** No start position and no digit count matches. */
  ghost predicate NoMatch(s: string) {
    forall i: nat, k: nat :: !MatchesAt(s, i, k)
  }

  /**
   * The match that `String.prototype.match` reports: the leftmost start position that
   * matches, and there the longest digit group that matches.
   */
  ghost predicate IsFirstMatch(s: string, i: nat, k: nat) {
    && MatchesAt(s, i, k)
    && (forall i': nat, k': nat :: i' < i ==> !MatchesAt(s, i', k'))
    && (forall k': nat :: k < k' ==> !MatchesAt(s, i, k'))
  }

  /** A match: its start position and the number of digits in the captured group. */
  datatype Match = Match(start: nat, digits: nat)

  // ---------------------------------------------------------------------------------------
  // The matching procedure

  /** Where the greedy `[\/\s]*` starting at `p` stops: the end of the separator run. */
  function SeparatorRunEnd(s: string, p: nat): (q: nat)
    requires p <= |s|
    ensures SeparatorsBetween(s, p, q)
    ensures q == |s| || !IsSeparator(s[q])
    decreases |s| - p
  {
    if p < |s| && IsSeparator(s[p]) then SeparatorRunEnd(s, p + 1) else p
  }

  /** `[\/\s]*100` from position `p`: the greedy separator run, then the literal. */
  function TailAt(s: string, p: nat): bool
    requires p <= |s|
  {
    HundredAt(s, SeparatorRunEnd(s, p))
  }

  /** How many digits the greedy `\d{1,limit}` takes from position `i`. */
  function GreedyDigits(s: string, i: nat, limit: nat): (n: nat)
    requires i <= |s|
    ensures n <= limit && DigitsAt(s, i, n)
    ensures n == limit || i + n == |s| || !IsDigit(s[i + n])
    decreases limit
  {
    if limit > 0 && i < |s| && IsDigit(s[i]) then 1 + GreedyDigits(s, i + 1, limit - 1) else 0
  }

  /** Backtracking over the digit group: try `k` digits, then `k - 1`, down to one. */
  function Backtrack(s: string, i: nat, k: nat): (r: Option<nat>)
    requires i + k <= |s|
    ensures r.Some? ==> 1 <= r.value <= k
    decreases k
  {
    if k == 0 then None
    else if TailAt(s, i + k) then Some(k)
    else Backtrack(s, i, k - 1)
  }

  /** One attempt of the pattern at start position `i`: the digit count it captures, if any. */
  function MatchAt(s: string, i: nat): (r: Option<nat>)
    requires i <= |s|
    ensures r.Some? ==> 1 <= r.value <= 3 && AtWordBoundary(s, i)
  {
    if !AtWordBoundary(s, i) then None
    else Backtrack(s, i, GreedyDigits(s, i, 3))
  }

  /** The scan over start positions `i`, `i + 1`, ..., `|s|`. */
  function Search(s: string, i: nat): (r: Option<Match>)
    requires i <= |s|
    ensures r.Some? ==> i <= r.value.start <= |s| && 1 <= r.value.digits <= 3
    decreases |s| - i
  {
    match MatchAt(s, i)
    case Some(k) => Some(Match(i, k))
    case None => if i == |s| then None else Search(s, i + 1)
  }

  /** `feedback.match(...)`: the reported match, if any. */
  function Exec(s: string): (r: Option<Match>)
    ensures r.Some? ==> 1 <= r.value.digits <= 3 && DigitsAt(s, r.value.start, r.value.digits)
  {
    SearchCorrect(s, 0);
    Search(s, 0)
  }

  /** Every character of `ds` is a digit. */
  predicate AllDigits(ds: string) {
    forall t :: 0 <= t < |ds| ==> IsDigit(ds[t])
  }

  /** `parseInt` of a string of ASCII decimal digits. */
  function DecimalValue(ds: string): (v: int)
    ensures AllDigits(ds) ==> 0 <= v < Pow10(|ds|)
    decreases |ds|
  {
    if ds == [] then 0
    else
      var d := ds[|ds| - 1] as int - '0' as int;
      var v := DecimalValue(ds[..|ds| - 1]);
      assert AllDigits(ds) ==> 0 <= v * 10 + d < Pow10(|ds|) by {
        if AllDigits(ds) {
          assert IsDigit(ds[|ds| - 1]);
          assert AllDigits(ds[..|ds| - 1]);
          assert v + 1 <= Pow10(|ds| - 1);
          assert (v + 1) * 10 <= Pow10(|ds| - 1) * 10;
        }
      }
      v * 10 + d
  }

  /** Ten to the power `n`. */
  function Pow10(n: nat): (p: nat)
    ensures p >= 1
  {
    if n == 0 then 1 else 10 * Pow10(n - 1)
  }

  /** The value of the captured digit group of a match found by `Exec`. */
  function GroupValue(s: string, m: Match): (v: nat)
    requires Exec(s) == Some(m)
    ensures v <= 999
  {
    ExecFindsFirstMatch(s);
    DecimalValue(s[m.start..m.start + m.digits])
  }

  /** The score the grade-answer handler reports for a feedback text (server.js, lines 117-118). */
  function ExtractScore(feedback: string): (score: nat)
    ensures score <= 999
  {
    match Exec(feedback)
    case None => DefaultScore
    case Some(m) => GroupValue(feedback, m)
  }

  // ---------------------------------------------------------------------------------------
  // The procedure agrees with the declarative reading of the pattern

  /** The greedy separator run reaches `100` exactly when some separator run does. */
  lemma TailAtCorrect(s: string, p: nat)
    requires p <= |s|
    ensures TailAt(s, p) <==> TailMatches(s, p)
  {
    var e := SeparatorRunEnd(s, p);
    if TailMatches(s, p) {
      var q: nat :| SeparatorsBetween(s, p, q) && HundredAt(s, q);
    }
    if TailAt(s, p) {
      assert SeparatorsBetween(s, p, e) && HundredAt(s, e);
    }
  }

  /** Backtracking from `n` digits returns the largest count up to `n` that matches. */
  lemma {:induction false} BacktrackCorrect(s: string, i: nat, n: nat)
    requires AtWordBoundary(s, i) && n <= 3 && DigitsAt(s, i, n)
    ensures match Backtrack(s, i, n)
            case Some(k) => 1 <= k <= n && MatchesAt(s, i, k)
                            && forall k': nat :: k < k' <= n ==> !MatchesAt(s, i, k')
            case None => forall k': nat :: k' <= n ==> !MatchesAt(s, i, k')
    decreases n
  {
    if n > 0 {
      TailAtCorrect(s, i + n);
      assert DigitsAt(s, i, n - 1);
      BacktrackCorrect(s, i, n - 1);
    }
  }

  /** More digits than `\d{1,3}` greedily took cannot form a match. */
  lemma GreedyDigitsBound(s: string, i: nat, k: nat)
    requires i <= |s| && MatchesAt(s, i, k)
    ensures k <= GreedyDigits(s, i, 3)
  {
  }

  /** One attempt at position `i` finds the longest digit group that matches there. */
  lemma MatchAtCorrect(s: string, i: nat)
    requires i <= |s|
    ensures match MatchAt(s, i)
            case Some(k) => MatchesAt(s, i, k) && forall k': nat :: k < k' ==> !MatchesAt(s, i, k')
            case None => forall k: nat :: !MatchesAt(s, i, k)
  {
    if AtWordBoundary(s, i) {
      var n := GreedyDigits(s, i, 3);
      BacktrackCorrect(s, i, n);
      forall k': nat | MatchesAt(s, i, k') ensures k' <= n {
        GreedyDigitsBound(s, i, k');
      }
    }
  }

  /** No match starts at or after position `i`. */
  ghost predicate NoMatchFrom(s: string, i: nat) {
    forall i': nat, k': nat :: i <= i' ==> !MatchesAt(s, i', k')
  }

  /** `m` is the leftmost-longest match among those starting at or after position `i`. */
  ghost predicate FirstFrom(s: string, i: nat, m: Match) {
    && i <= m.start && MatchesAt(s, m.start, m.digits)
    && (forall i': nat, k': nat :: i <= i' < m.start ==> !MatchesAt(s, i', k'))
    && (forall k': nat :: m.digits < k' ==> !MatchesAt(s, m.start, k'))
  }

  /** The scan from `i` finds the first match at or after `i`, or reports that there is none. */
  lemma {:induction false} SearchCorrect(s: string, i: nat)
    requires i <= |s|
    ensures Search(s, i).Some? ==> FirstFrom(s, i, Search(s, i).value)
    ensures Search(s, i).None? ==> NoMatchFrom(s, i)
    decreases |s| - i
  {
    MatchAtCorrect(s, i);
    match MatchAt(s, i)
    case Some(k) =>
      assert Search(s, i) == Some(Match(i, k));
    case None =>
      if i < |s| {
        SearchCorrect(s, i + 1);
        assert Search(s, i) == Search(s, i + 1);
        if Search(s, i + 1).Some? {
          FirstFromStep(s, i, Search(s, i + 1).value);
        } else {
          NoMatchFromStep(s, i);
        }
      } else {
        NoMatchFromEnd(s, i);
      }
  }

  /** A start position where nothing matches can be left out of `FirstFrom`. */
  lemma FirstFromStep(s: string, i: nat, m: Match)
    requires (forall k: nat :: !MatchesAt(s, i, k)) && FirstFrom(s, i + 1, m)
    ensures FirstFrom(s, i, m)
  {
  }

  /** A start position where nothing matches can be left out of `NoMatchFrom`. */
  lemma NoMatchFromStep(s: string, i: nat)
    requires (forall k: nat :: !MatchesAt(s, i, k)) && NoMatchFrom(s, i + 1)
    ensures NoMatchFrom(s, i)
  {
  }

  /** Nothing matches at the end of the text or beyond it: the digit group needs a character. */
  lemma NoMatchFromEnd(s: string, i: nat)
    requires |s| <= i
    ensures NoMatchFrom(s, i)
  {
    forall i': nat, k': nat | i <= i' ensures !MatchesAt(s, i', k') {
      if 1 <= k' {
        assert !DigitsAt(s, i', k');
      }
    }
  }

  /**
   * `Exec` reports exactly the leftmost-longest match: it reports `m` iff `m` is the first
   * match, and it reports nothing iff there is no match at all.
   */
  lemma ExecFindsFirstMatch(s: string)
    ensures Exec(s).None? <==> NoMatch(s)
    ensures forall i: nat, k: nat :: Exec(s) == Some(Match(i, k)) <==> IsFirstMatch(s, i, k)
  {
    SearchCorrect(s, 0);
    forall i: nat, k: nat | IsFirstMatch(s, i, k) ensures Exec(s) == Some(Match(i, k)) {
      var m := Exec(s).value;
      FirstMatchUnique(s, i, k, m.start, m.digits);
    }
  }

  /**
   * The score is the default exactly when the text holds no match, and otherwise the decimal
   * value of the digit group of the first match.
   */
  lemma ScoreOfFirstMatch(s: string)
    ensures NoMatch(s) ==> ExtractScore(s) == DefaultScore
    ensures forall i: nat, k: nat :: IsFirstMatch(s, i, k) ==>
      ExtractScore(s) == DecimalValue(s[i..i + k])
  {
    ExecFindsFirstMatch(s);
  }

  /**
   * When the scan reaches start position `i` unchanged and captures `k` digits there whose
   * value is `v`, the score is `v`.
   */
  lemma ScoreAt(s: string, i: nat, k: nat, v: int)
    requires i <= |s| && Search(s, 0) == Search(s, i) && MatchAt(s, i) == Some(k)
    requires i + k <= |s| && DecimalValue(s[i..i + k]) == v
    ensures ExtractScore(s) == v
  {
  }

  /** Positions that hold no digit never start a match: the scan passes over them. */
  lemma {:induction false} SearchSkipsNonDigits(s: string, i: nat, j: nat)
    requires i <= j <= |s|
    requires forall t :: i <= t < j ==> !IsDigit(s[t])
    ensures Search(s, i) == Search(s, j)
    decreases j - i
  {
    if i < j {
      SearchSkipsNonDigits(s, i + 1, j);
    }
  }

  // ---------------------------------------------------------------------------------------
  // One start position at a time, for concrete texts

  /** The scan steps over a start position where the attempt fails. */
  lemma SearchStep(s: string, i: nat)
    requires i < |s| && MatchAt(s, i) == None
    ensures Search(s, i) == Search(s, i + 1)
  {
  }

  /** The scan stops at a start position where the attempt succeeds. */
  lemma SearchStops(s: string, i: nat, k: nat)
    requires i <= |s| && MatchAt(s, i) == Some(k)
    ensures Search(s, i) == Some(Match(i, k))
  {
  }

  /** The scan that reaches the end of the text finds nothing. */
  lemma SearchAtEnd(s: string)
    ensures Search(s, |s|) == None
  {
    assert GreedyDigits(s, |s|, 3) == 0;
  }

  /** The attempt fails at a character that is no digit. */
  lemma NoMatchAtNonDigit(s: string, i: nat)
    requires i < |s| && !IsDigit(s[i])
    ensures MatchAt(s, i) == None
  {
  }

  /** The attempt fails between two word characters, where `\b` does not hold. */
  lemma NoMatchInsideWord(s: string, i: nat)
    requires 0 < i < |s| && IsWordChar(s[i - 1]) && IsWordChar(s[i])
    ensures MatchAt(s, i) == None
  {
  }

  /** The attempt at `i` fails when no `100` starts after `i`. */
  lemma NoMatchWithoutLaterHundred(s: string, i: nat)
    requires i <= |s| && forall q: nat :: i < q ==> !HundredAt(s, q)
    ensures MatchAt(s, i) == None
  {
    MatchAtCorrect(s, i);
  }

  /**
   * Digits at a word boundary, then separators, then `100`: the attempt captures exactly
   * those digits, whatever backtracking it takes, since no other digit count can match.
   */
  lemma MatchAtGroup(s: string, i: nat, k: nat, q: nat)
    requires AtWordBoundary(s, i) && 1 <= k <= 3 && DigitsAt(s, i, k)
    requires SeparatorsBetween(s, i + k, q) && HundredAt(s, q)
    ensures MatchAt(s, i) == Some(k)
  {
    assert MatchesAt(s, i, k);
    MatchAtCorrect(s, i);
    forall k': nat | MatchesAt(s, i, k') ensures k' == k {
      AtMostOneDigitCount(s, i, k, k');
    }
  }

  // ---------------------------------------------------------------------------------------
  // Properties of the pattern

  /**
   * At one start position at most one digit count can match: after a shorter group the
   * next characters are separators or the `1` of `100`, and then a longer group would have
   * to be followed by a `0`, which neither is a separator nor starts `100`.
   */
  lemma AtMostOneDigitCount(s: string, i: nat, k: nat, k': nat)
    requires MatchesAt(s, i, k) && MatchesAt(s, i, k')
    ensures k == k'
  {
    TailStart(s, i + k);
    TailStart(s, i + k');
  }

  /** Where `[\/\s]*100` matches, it starts with a separator or with the `1` of `100`. */
  lemma TailStart(s: string, p: nat)
    requires TailMatches(s, p)
    ensures p + 3 <= |s| && (IsSeparator(s[p]) || HundredAt(s, p))
  {
    var q: nat :| SeparatorsBetween(s, p, q) && HundredAt(s, q);
    if p < q {
      assert IsSeparator(s[p]);
    }
  }

  /** The first match is determined by the text: two first matches are the same match. */
  lemma FirstMatchUnique(s: string, i: nat, k: nat, i': nat, k': nat)
    requires IsFirstMatch(s, i, k) && IsFirstMatch(s, i', k')
    ensures i == i' && k == k'
  {
    if i == i' {
      AtMostOneDigitCount(s, i, k, k');
    }
  }

  /** A digit preceded by a word character (a letter, a digit or `_`) never starts a match. */
  lemma NoMatchAfterWordChar(s: string, i: nat, k: nat)
    requires 0 < i < |s| && IsWordChar(s[i - 1])
    ensures !MatchesAt(s, i, k)
  {
  }

  /** A match that lies inside `s` is still a match once more text is appended to `s`. */
  lemma MatchExtends(s: string, t: string, i: nat, k: nat)
    requires MatchesAt(s, i, k)
    ensures MatchesAt(s + t, i, k)
  {
    var q: nat :| SeparatorsBetween(s, i + k, q) && HundredAt(s, q);
    assert SeparatorsBetween(s + t, i + k, q) && HundredAt(s + t, q);
  }

  /**
   * A match in `s + t` that starts before a match lying inside `s` lies inside `s` too:
   * it cannot run on past the end of `s`.
   */
  lemma EarlierMatchInside(s: string, t: string, i: nat, k: nat, i': nat, k': nat)
    requires MatchesAt(s, i, k) && i' < i && MatchesAt(s + t, i', k')
    ensures MatchesAt(s, i', k')
  {
    var u := s + t;
    var q: nat :| SeparatorsBetween(s, i + k, q) && HundredAt(s, q);
    var q': nat :| SeparatorsBetween(u, i' + k', q') && HundredAt(u, q');
    // the match at i cannot start inside the earlier one: not among its digits or
    // separators (MatchInterior), and not at or after its `100` (too little room is left)
    assert u[i] == s[i] && IsDigit(u[i]) && !WordAt(u, i - 1);
    MatchInterior(u, i', k', q', i);
    if q' + 3 > |s| {
      assert false;
    }
    assert forall t :: 0 <= t < |s| ==> u[t] == s[t];
    assert SeparatorsBetween(s, i' + k', q') && HundredAt(s, q');
  }

  /**
   * Inside a match, before its `100`, no digit follows a non-word character: the digits of
   * the group follow the start or each other, and the rest are separators.
   */
  lemma MatchInterior(u: string, i: nat, k: nat, q: nat, p: nat)
    requires DigitsAt(u, i, k) && SeparatorsBetween(u, i + k, q) && i < p
    ensures p < q ==> WordAt(u, p - 1) || !IsDigit(u[p])
  {
    if p < i + k {
      assert IsDigit(u[p - 1]);
    } else if p < q {
      assert IsSeparator(u[p]);
    }
  }

  /** Once the feedback holds a match, text appended after it never changes the score. */
  lemma ScoreIgnoresAppendedText(s: string, t: string)
    requires !NoMatch(s)
    ensures ExtractScore(s + t) == ExtractScore(s)
  {
    ExecFindsFirstMatch(s);
    var m := Exec(s).value;
    var i, k := m.start, m.digits;
    assert IsFirstMatch(s, i, k);
    MatchExtends(s, t, i, k);
    forall i': nat, k': nat | i' < i ensures !MatchesAt(s + t, i', k') {
      if MatchesAt(s + t, i', k') {
        EarlierMatchInside(s, t, i, k, i', k');
      }
    }
    forall k': nat | k < k' ensures !MatchesAt(s + t, i, k') {
      if MatchesAt(s + t, i, k') {
        AtMostOneDigitCount(s + t, i, k, k');
      }
    }
    assert IsFirstMatch(s + t, i, k);
    assert i + k <= |s|;
    assert (s + t)[..|s|] == s;
    assert (s + t)[i..i + k] == s[i..i + k];
    ScoreOfFirstMatch(s);
    ScoreOfFirstMatch(s + t);
  }
}
