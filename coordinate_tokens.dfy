/**
 * The coordinate extractor: `re.findall` applied to the `centroide_rd` string of a
 * lookup document, whose first two tokens become RD X and RD Y.
 *
 * The two versions of the script use different patterns:
 *   - Python 3: `\d+[.]?\d+`  (a digit run, an optional literal dot, a digit run);
 *   - Python 2: `\d+.\d+`     (the dot is unescaped, so it matches any character but '\n').
 *
 * `Backtrack` follows Python's backtracking engine at one start position, `Scan` is
 * findall's left-to-right loop over start positions. `IsToken` and `IsFindAll` say
 * independently what the matches are, and the lemmas tie the two together.
 */
module CoordinateTokens {
  import opened Common

  datatype Pattern =
    | OptionalDot  // Python 3: \d+[.]?\d+
    | AnyMiddle    // Python 2: \d+.\d+

  /** A match of findall, as the half-open range s[lo..hi]. */
  datatype Span = Span(lo: nat, hi: nat)

  predicate AllDigits(t: string)
  {
    forall i :: 0 <= i < |t| ==> IsDigit(t[i])
  }

  /** The language of the pattern: the strings the whole regex matches. */
  predicate IsToken(pat: Pattern, t: string)
  {
    match pat
    case OptionalDot =>
      (|t| >= 2 && AllDigits(t)) ||
      (exists i :: 0 < i < |t| - 1 && t[i] == '.' && AllDigits(t[..i]) && AllDigits(t[i + 1..]))
    case AnyMiddle =>
      exists i :: 0 < i < |t| - 1 && t[i] != '\n' && AllDigits(t[..i]) && AllDigits(t[i + 1..])
  }

  /** The length of the maximal run of digits that starts at position i. */
  function DigitRun(s: string, i: nat): (n: nat)
    requires i <= |s|
    ensures i + n <= |s|
    ensures forall k :: i <= k < i + n ==> IsDigit(s[k])
    ensures i + n == |s| || !IsDigit(s[i + n])
    decreases |s| - i
  {
    if i < |s| && IsDigit(s[i]) then 1 + DigitRun(s, i + 1) else 0
  }

  /**
   * The regex engine at start position p, with the leading `\d+` holding k digits:
   * it tries the rest of the pattern and, failing that, gives one digit back.
   * The trailing greedy `\d+` ends the pattern, so its first (longest) try succeeds.
   */
  function Backtrack(pat: Pattern, s: string, p: nat, k: nat): (r: Option<nat>)
    requires p + k <= |s|
    ensures r.Some? ==> p + 2 <= r.value <= |s|
    decreases k
  {
    if k == 0 then None
    else
      var q := p + k;
      match pat
      case OptionalDot =>
        if q < |s| && s[q] == '.' && DigitRun(s, q + 1) > 0 then Some(q + 1 + DigitRun(s, q + 1))
        else if DigitRun(s, q) > 0 then Some(q + DigitRun(s, q))
        else Backtrack(pat, s, p, k - 1)
      case AnyMiddle =>
        if q < |s| && s[q] != '\n' && DigitRun(s, q + 1) > 0 then Some(q + 1 + DigitRun(s, q + 1))
        else Backtrack(pat, s, p, k - 1)
  }

  /** The end of the match that starts at p, if the pattern matches there at all. */
  function MatchAt(pat: Pattern, s: string, p: nat): Option<nat>
    requires p <= |s|
  {
    Backtrack(pat, s, p, DigitRun(s, p))
  }

  /** findall: try each start position from `from` on, resuming after every match. */
  function Scan(pat: Pattern, s: string, from: nat): (spans: seq<Span>)
    requires from <= |s|
    ensures forall i :: 0 <= i < |spans| ==> from <= spans[i].lo < spans[i].hi <= |s|
    decreases |s| - from
  {
    if from == |s| then []
    else
      match MatchAt(pat, s, from)
      case Some(e) => [Span(from, e)] + Scan(pat, s, e)
      case None => Scan(pat, s, from + 1)
  }

  function Substrings(s: string, spans: seq<Span>): (tokens: seq<string>)
    requires forall i :: 0 <= i < |spans| ==> spans[i].lo <= spans[i].hi <= |s|
  {
    seq(|spans|, i requires 0 <= i < |spans| => s[spans[i].lo..spans[i].hi])
  }

  /** `re.findall(pattern, s)`. */
  function FindAll(pat: Pattern, s: string): seq<string>
  {
    Substrings(s, Scan(pat, s, 0))
  }

  /**
   * `coords = re.findall(...)`, then `coords[0]` and `coords[1]`: the RD X and Y
   * strings, or the IndexError raised when fewer than two tokens are found.
   */
  function Coordinates(pat: Pattern, centroid: string): Result<(string, string)>
  {
    var coords := FindAll(pat, centroid);
    if |coords| < 2 then Err(IndexError) else Ok((coords[0], coords[1]))
  }

  // ---------------------------------------------------------------------------
  // The specification of findall

  /** No match of the pattern starts at any position in [a, b). */
  ghost predicate NoTokenStarts(pat: Pattern, s: string, a: nat, b: nat)
    requires b <= |s|
  {
    forall q, e :: a <= q < b && q < e <= |s| ==> !IsToken(pat, s[q..e])
  }

  /** s[lo..hi] is a token and no longer token starts at lo. */
  ghost predicate LongestAt(pat: Pattern, s: string, lo: nat, hi: nat)
  {
    lo < hi <= |s| && IsToken(pat, s[lo..hi]) &&
    forall e :: hi < e <= |s| ==> !IsToken(pat, s[lo..e])
  }

  /**
   * The matches findall reports from position `from`: the leftmost position where a
   * token starts, the longest token there, then the same again from its end.
   */
  ghost predicate IsFindAll(pat: Pattern, s: string, from: nat, spans: seq<Span>)
    requires from <= |s|
    decreases |spans|
  {
    if spans == [] then NoTokenStarts(pat, s, from, |s|)
    else
      from <= spans[0].lo &&
      LongestAt(pat, s, spans[0].lo, spans[0].hi) &&
      NoTokenStarts(pat, s, from, spans[0].lo) &&
      IsFindAll(pat, s, spans[0].hi, spans[1..])
  }

  // ---------------------------------------------------------------------------
  // Lemmas about digit runs

  /** A run of digits from i to i + m that is not followed by a digit is the maximal run. */
  lemma {:induction false} DigitRunIs(s: string, i: nat, m: nat)
    requires i + m <= |s|
    requires forall k :: i <= k < i + m ==> IsDigit(s[k])
    requires i + m == |s| || !IsDigit(s[i + m])
    ensures DigitRun(s, i) == m
    decreases m
  {
    if m > 0 {
      DigitRunIs(s, i + 1, m - 1);
    }
  }

  /** Digits filling s[a..b] lie inside the maximal run that starts at a. */
  lemma {:induction false} DigitsWithinRun(s: string, a: nat, b: nat)
    requires a <= b <= |s|
    requires AllDigits(s[a..b])
    ensures b <= a + DigitRun(s, a)
    decreases b - a
  {
    if a < b {
      assert s[a..b][0] == s[a];
      assert s[a + 1..b] == s[a..b][1..];
      DigitsWithinRun(s, a + 1, b);
    }
  }

  /** The digit run at p, read from its k-th digit on. */
  lemma DigitRunFrom(s: string, p: nat, k: nat)
    requires p <= |s|
    requires k <= DigitRun(s, p)
    ensures DigitRun(s, p + k) == DigitRun(s, p) - k
  {
    DigitRunIs(s, p + k, DigitRun(s, p) - k);
  }

  // ---------------------------------------------------------------------------
  // What the engine finds at one start position

  /** Whether the pattern's middle part accepts the character at q. */
  predicate MiddleAt(pat: Pattern, s: string, q: nat)
  {
    q < |s| && (if pat.OptionalDot? then s[q] == '.' else s[q] != '\n')
  }

  /** The shortest digit run the pattern matches on its own: 2 for Python 3, 3 for Python 2. */
  function MinRun(pat: Pattern): nat
  {
    if pat.OptionalDot? then 2 else 3
  }

  /**
   * The match at p in closed form. Let n be the digit run at p. If the pattern's middle
   * part can follow the whole run and a digit follows that, the match is the run, the
   * middle character and the next digit run. Otherwise it is the run alone, when the run
   * is long enough for the pattern, and there is no match at all when it is not.
   */
  function ClosedFormMatch(pat: Pattern, s: string, p: nat): Option<nat>
    requires p <= |s|
  {
    var n := DigitRun(s, p);
    var q := p + n;
    if n >= 1 && MiddleAt(pat, s, q) && DigitRun(s, q + 1) > 0 then Some(q + 1 + DigitRun(s, q + 1))
    else if n >= MinRun(pat) then Some(q)
    else None
  }

  /**
   * Giving back digits until the first `\d+` ends at least MinRun - 1 digits before
   * the end of the run: the rest of the pattern then matches the remaining digits.
   */
  lemma BacktrackInsideRun(pat: Pattern, s: string, p: nat, k: nat)
    requires p <= |s|
    requires 1 <= k && k + MinRun(pat) - 1 <= DigitRun(s, p)
    ensures Backtrack(pat, s, p, k) == Some(p + DigitRun(s, p))
  {
    var n := DigitRun(s, p);
    DigitRunFrom(s, p, k);
    assert IsDigit(s[p + k]);
    if pat.AnyMiddle? {
      DigitRunFrom(s, p, k + 1);
    }
  }

  /** Python 2 with one digit left after the first `\d+`: the engine gives back another. */
  lemma BacktrackLastDigit(s: string, p: nat, k: nat)
    requires p <= |s|
    requires 1 <= k && k + 1 == DigitRun(s, p)
    ensures Backtrack(AnyMiddle, s, p, k) == Backtrack(AnyMiddle, s, p, k - 1)
  {
    DigitRunFrom(s, p, k + 1);
  }

  /** The backtracking engine ends up at the closed form. */
  lemma MatchAtClosedForm(pat: Pattern, s: string, p: nat)
    requires p <= |s|
    ensures MatchAt(pat, s, p) == ClosedFormMatch(pat, s, p)
  {
    var n := DigitRun(s, p);
    var q := p + n;
    if n == 0 {
      assert MatchAt(pat, s, p) == None;
    } else if MiddleAt(pat, s, q) && DigitRun(s, q + 1) > 0 {
      assert MatchAt(pat, s, p) == Some(q + 1 + DigitRun(s, q + 1));
    } else {
      MatchAtGivesBack(pat, s, p);
    }
  }

  /**
   * When the middle part and a digit cannot follow the whole run, the engine gives
   * digits back: it ends with the run alone, or with no match when the run is short.
   */
  lemma MatchAtGivesBack(pat: Pattern, s: string, p: nat)
    requires p <= |s| && DigitRun(s, p) >= 1
    requires !(MiddleAt(pat, s, p + DigitRun(s, p)) && DigitRun(s, p + DigitRun(s, p) + 1) > 0)
    ensures MatchAt(pat, s, p) == if DigitRun(s, p) >= MinRun(pat) then Some(p + DigitRun(s, p)) else None
  {
    var n := DigitRun(s, p);
    DigitRunFrom(s, p, n);
    assert MatchAt(pat, s, p) == Backtrack(pat, s, p, n - 1);
    if n < MinRun(pat) {
      if n == 2 {
        BacktrackLastDigit(s, p, 1);
      }
      assert Backtrack(pat, s, p, 0) == None;
    } else if pat.OptionalDot? {
      BacktrackInsideRun(pat, s, p, n - 1);
    } else {
      BacktrackLastDigit(s, p, n - 1);
      BacktrackInsideRun(pat, s, p, n - 2);
    }
  }

  /** A match the engine reports is a token. */
  lemma MatchAtIsToken(pat: Pattern, s: string, p: nat)
    requires p <= |s|
    requires MatchAt(pat, s, p).Some?
    ensures IsToken(pat, s[p..MatchAt(pat, s, p).value])
  {
    MatchAtClosedForm(pat, s, p);
    var n := DigitRun(s, p);
    var q := p + n;
    var e := MatchAt(pat, s, p).value;
    var t := s[p..e];
    if n >= 1 && MiddleAt(pat, s, q) && DigitRun(s, q + 1) > 0 {
      assert t[..n] == s[p..q];
      assert t[n + 1..] == s[q + 1..e];
      assert 0 < n < |t| - 1 && t[n] == s[q];
      assert AllDigits(t[..n]) && AllDigits(t[n + 1..]);
    } else {
      assert e == q && n >= MinRun(pat);
      assert AllDigits(t);
      if pat.AnyMiddle? {
        assert 0 < n - 2 < |t| - 1 && t[n - 2] != '\n';
        assert AllDigits(t[..n - 2]) && AllDigits(t[n - 1..]);
      }
    }
  }

  /** A token made of digits alone (Python 3) ends within the engine's match at p. */
  lemma DigitTokenWithinMatch(s: string, p: nat, e: nat)
    requires p + 2 <= e <= |s|
    requires AllDigits(s[p..e])
    ensures MatchAt(OptionalDot, s, p).Some? && e <= MatchAt(OptionalDot, s, p).value
  {
    MatchAtClosedForm(OptionalDot, s, p);
    DigitsWithinRun(s, p, e);
  }

  /**
   * A token whose middle character sits at offset i ends within the engine's match
   * at p: the digits before the middle lie in the run at p, and the digits after it
   * cannot reach past that run unless the middle character is the one that ends it.
   */
  lemma SplitTokenWithinMatch(pat: Pattern, s: string, p: nat, e: nat, i: nat)
    requires p < e <= |s|
    requires 0 < i < e - p - 1
    requires if pat.OptionalDot? then s[p + i] == '.' else s[p + i] != '\n'
    requires AllDigits(s[p..p + i]) && AllDigits(s[p + i + 1..e])
    ensures MatchAt(pat, s, p).Some? && e <= MatchAt(pat, s, p).value
  {
    MatchAtClosedForm(pat, s, p);
    var n := DigitRun(s, p);
    DigitsWithinRun(s, p, p + i);
    if i == n {
      DigitsWithinRun(s, p + n + 1, e);
    } else {
      assert IsDigit(s[p + i]);
      DigitsWithinRun(s, p + i + 1, e);
      DigitRunFrom(s, p, i + 1);
    }
  }

  /**
   * Every token that starts at p ends no later than the engine's match there; in
   * particular the engine finds a match whenever some token starts at p.
   */
  lemma TokenWithinMatch(pat: Pattern, s: string, p: nat, e: nat)
    requires p < e <= |s|
    requires IsToken(pat, s[p..e])
    ensures MatchAt(pat, s, p).Some? && e <= MatchAt(pat, s, p).value
  {
    var t := s[p..e];
    if pat.OptionalDot? && |t| >= 2 && AllDigits(t) {
      DigitTokenWithinMatch(s, p, e);
    } else {
      var i :| 0 < i < |t| - 1 && (if pat.OptionalDot? then t[i] == '.' else t[i] != '\n') &&
               AllDigits(t[..i]) && AllDigits(t[i + 1..]);
      assert t[..i] == s[p..p + i];
      assert t[i + 1..] == s[p + i + 1..e];
      SplitTokenWithinMatch(pat, s, p, e, i);
    }
  }

  /** MatchAt is the longest token starting at p, and there is none when it fails. */
  lemma MatchAtIsLongestToken(pat: Pattern, s: string, p: nat)
    requires p <= |s|
    ensures MatchAt(pat, s, p).Some? ==> LongestAt(pat, s, p, MatchAt(pat, s, p).value)
    ensures MatchAt(pat, s, p).None? ==> forall e :: p < e <= |s| ==> !IsToken(pat, s[p..e])
  {
    if MatchAt(pat, s, p).Some? {
      MatchAtIsToken(pat, s, p);
    }
    forall e | p < e <= |s| && IsToken(pat, s[p..e])
      ensures MatchAt(pat, s, p).Some? && e <= MatchAt(pat, s, p).value
    {
      TokenWithinMatch(pat, s, p, e);
    }
  }

  // ---------------------------------------------------------------------------
  // findall

  /** Where the engine finds nothing, findall's specification may start one position later. */
  lemma IsFindAllPastNoMatch(pat: Pattern, s: string, from: nat, spans: seq<Span>)
    requires from < |s| && MatchAt(pat, s, from).None?
    requires IsFindAll(pat, s, from + 1, spans)
    ensures IsFindAll(pat, s, from, spans)
  {
    MatchAtIsLongestToken(pat, s, from);
    var b := if spans == [] then |s| else spans[0].lo;
    assert NoTokenStarts(pat, s, from + 1, b);
    assert NoTokenStarts(pat, s, from, b);
  }

  /** Where no token starts, the engine finds nothing and the specification moves on. */
  lemma IsFindAllSkip(pat: Pattern, s: string, from: nat, spans: seq<Span>)
    requires from < |s| && IsFindAll(pat, s, from, spans)
    requires spans == [] || from < spans[0].lo
    ensures MatchAt(pat, s, from).None?
    ensures IsFindAll(pat, s, from + 1, spans)
    ensures Scan(pat, s, from) == Scan(pat, s, from + 1)
  {
    var b := if spans == [] then |s| else spans[0].lo;
    assert NoTokenStarts(pat, s, from, b);
    if MatchAt(pat, s, from).Some? {
      MatchAtIsToken(pat, s, from);
      assert false;
    }
    assert NoTokenStarts(pat, s, from + 1, b);
  }

  /** Two longest tokens at the same position are the same. */
  lemma LongestIsUnique(pat: Pattern, s: string, lo: nat, h1: nat, h2: nat)
    requires LongestAt(pat, s, lo, h1) && LongestAt(pat, s, lo, h2)
    ensures h1 == h2
  {
  }

  /** Scan reports exactly the matches the specification of findall describes. */
  lemma {:induction false} ScanIsFindAll(pat: Pattern, s: string, from: nat)
    requires from <= |s|
    ensures IsFindAll(pat, s, from, Scan(pat, s, from))
    decreases |s| - from
  {
    if from < |s| {
      match MatchAt(pat, s, from)
      case Some(e) =>
        MatchAtIsLongestToken(pat, s, from);
        ScanIsFindAll(pat, s, e);
        var spans := Scan(pat, s, from);
        assert spans == [Span(from, e)] + Scan(pat, s, e);
        assert spans[1..] == Scan(pat, s, e);
      case None =>
        ScanIsFindAll(pat, s, from + 1);
        IsFindAllPastNoMatch(pat, s, from, Scan(pat, s, from + 1));
    }
  }

  /** The specification of findall admits a single sequence of matches: Scan's. */
  lemma {:induction false} FindAllIsUnique(pat: Pattern, s: string, from: nat, spans: seq<Span>)
    requires from <= |s|
    requires IsFindAll(pat, s, from, spans)
    ensures spans == Scan(pat, s, from)
    decreases |s| - from, |spans|
  {
    if from == |s| {
      NoSpansAtEnd(pat, s, spans);
    } else if spans == [] || from < spans[0].lo {
      IsFindAllSkip(pat, s, from, spans);
      FindAllIsUnique(pat, s, from + 1, spans);
    } else {
      FindAllIsUnique(pat, s, spans[0].hi, spans[1..]);
      UniqueStep(pat, s, from, spans);
    }
  }

  /** The match case of FindAllIsUnique, once the rest of the spans are known to be Scan's. */
  lemma UniqueStep(pat: Pattern, s: string, from: nat, spans: seq<Span>)
    requires from < |s| && IsFindAll(pat, s, from, spans)
    requires spans != [] && spans[0].lo <= from && spans[0].hi <= |s|
    requires spans[1..] == Scan(pat, s, spans[0].hi)
    ensures spans == Scan(pat, s, from)
  {
    FirstSpanIsMatch(pat, s, from, spans);
    assert spans == [spans[0]] + spans[1..];
  }

  /** Past the end of s the specification admits no match. */
  lemma NoSpansAtEnd(pat: Pattern, s: string, spans: seq<Span>)
    requires IsFindAll(pat, s, |s|, spans)
    ensures spans == []
  {
    if spans != [] {
      assert false;
    }
  }

  /** A span of the specification that starts where the search starts is the engine's match. */
  lemma FirstSpanIsMatch(pat: Pattern, s: string, from: nat, spans: seq<Span>)
    requires from < |s| && IsFindAll(pat, s, from, spans)
    requires spans != [] && spans[0].lo <= from
    ensures spans[0] == Span(from, spans[0].hi)
    ensures MatchAt(pat, s, from) == Some(spans[0].hi)
    ensures spans[0].hi <= |s| && IsFindAll(pat, s, spans[0].hi, spans[1..])
    ensures Scan(pat, s, from) == [Span(from, spans[0].hi)] + Scan(pat, s, spans[0].hi)
  {
    var hi := spans[0].hi;
    assert LongestAt(pat, s, from, hi);
    TokenWithinMatch(pat, s, from, hi);
    MatchAtIsLongestToken(pat, s, from);
    LongestIsUnique(pat, s, from, hi, MatchAt(pat, s, from).value);
  }

  /**
   * Each span is a token of at least two characters, and each ends before the next
   * begins: the spans do not overlap and come left to right.
   */
  ghost predicate OrderedTokens(pat: Pattern, s: string, spans: seq<Span>)
  {
    (forall i :: 0 <= i < |spans| ==>
       spans[i].lo + 2 <= spans[i].hi <= |s| && IsToken(pat, s[spans[i].lo..spans[i].hi])) &&
    (forall i, j :: 0 <= i < j < |spans| ==> spans[i].hi <= spans[j].lo)
  }

  /** A token followed by ordered tokens that start after it: the whole is ordered. */
  lemma OrderedCons(pat: Pattern, s: string, lo: nat, hi: nat, rest: seq<Span>)
    requires lo + 2 <= hi <= |s| && IsToken(pat, s[lo..hi])
    requires OrderedTokens(pat, s, rest)
    requires forall i :: 0 <= i < |rest| ==> hi <= rest[i].lo
    ensures OrderedTokens(pat, s, [Span(lo, hi)] + rest)
  {
    var spans := [Span(lo, hi)] + rest;
    forall i | 0 <= i < |spans|
      ensures spans[i].lo + 2 <= spans[i].hi <= |s| && IsToken(pat, s[spans[i].lo..spans[i].hi])
    {
      if i > 0 {
        assert spans[i] == rest[i - 1];
      }
    }
    forall i, j | 0 <= i < j < |spans|
      ensures spans[i].hi <= spans[j].lo
    {
      assert spans[j] == rest[j - 1];
      if i > 0 {
        assert spans[i] == rest[i - 1];
      }
    }
  }

  /** The matches findall reports are ordered, non-overlapping tokens. */
  lemma {:induction false} ScanOrderedTokens(pat: Pattern, s: string, from: nat)
    requires from <= |s|
    ensures OrderedTokens(pat, s, Scan(pat, s, from))
    decreases |s| - from
  {
    if from < |s| {
      match MatchAt(pat, s, from)
      case Some(e) =>
        MatchAtIsToken(pat, s, from);
        ScanOrderedTokens(pat, s, e);
        OrderedCons(pat, s, from, e, Scan(pat, s, e));
      case None =>
        ScanOrderedTokens(pat, s, from + 1);
    }
  }

  /** findall passes over characters that cannot start a token. */
  lemma {:induction false} ScanSkipsNonDigits(pat: Pattern, s: string, from: nat, to: nat)
    requires from <= to <= |s|
    requires forall i :: from <= i < to ==> !IsDigit(s[i])
    ensures Scan(pat, s, from) == Scan(pat, s, to)
    decreases |s| - from
  {
    if from < to {
      assert DigitRun(s, from) == 0;
      ScanSkipsNonDigits(pat, s, from + 1, to);
    }
  }

  /**
   * A token at p made of a digit run w, the pattern's middle character c and a digit
   * run f, with no digit right after it: findall reports it and resumes at its end.
   */
  lemma ScanTakesSplit(pat: Pattern, s: string, p: nat, w: string, c: char, f: string, e: nat)
    requires |w| > 0 && |f| > 0 && AllDigits(w) && AllDigits(f) && !IsDigit(c)
    requires e == p + |w| + 1 + |f| <= |s| && s[p..e] == w + [c] + f
    requires MiddleAt(pat, s, p + |w|)
    requires e == |s| || !IsDigit(s[e])
    ensures Scan(pat, s, p) == [Span(p, e)] + Scan(pat, s, e)
  {
    SplitRuns(s, p, w, c, f, e);
    MatchAtClosedForm(pat, s, p);
    assert MatchAt(pat, s, p) == Some(e);
  }

  /** The digit runs on both sides of the middle character of s[p..e] == w + [c] + f. */
  lemma SplitRuns(s: string, p: nat, w: string, c: char, f: string, e: nat)
    requires |w| > 0 && |f| > 0 && AllDigits(w) && AllDigits(f) && !IsDigit(c)
    requires e == p + |w| + 1 + |f| <= |s| && s[p..e] == w + [c] + f
    requires e == |s| || !IsDigit(s[e])
    ensures DigitRun(s, p) == |w| && s[p + |w|] == c && DigitRun(s, p + |w| + 1) == |f|
  {
    var t := s[p..e];
    var q := p + |w|;
    forall k | p <= k < q ensures IsDigit(s[k]) {
      assert s[k] == t[k - p] == w[k - p];
    }
    assert s[q] == t[|w|] == c;
    forall k | q + 1 <= k < e ensures IsDigit(s[k]) {
      assert s[k] == t[k - p] == f[k - q - 1];
    }
    DigitRunIs(s, p, |w|);
    DigitRunIs(s, q + 1, |f|);
  }

  /** Whether a middle character and then a digit follow position e. */
  predicate ContinuesAt(pat: Pattern, s: string, e: nat)
  {
    MiddleAt(pat, s, e) && e + 1 < |s| && IsDigit(s[e + 1])
  }

  /** The engine at the start of a maximal digit run s[p..e] that nothing continues. */
  lemma RunMatch(pat: Pattern, s: string, p: nat, e: nat)
    requires p < e <= |s| && AllDigits(s[p..e])
    requires e == |s| || !IsDigit(s[e])
    requires !ContinuesAt(pat, s, e)
    ensures MatchAt(pat, s, p) == if e - p >= MinRun(pat) then Some(e) else None
  {
    forall k | p <= k < e ensures IsDigit(s[k]) {
      assert s[k] == s[p..e][k - p];
    }
    DigitRunIs(s, p, e - p);
    MatchAtClosedForm(pat, s, p);
  }

  /**
   * A maximal digit run s[p..e] that nothing continues: findall reports it when it is
   * long enough for the pattern and passes over it otherwise.
   */
  lemma {:induction false} ScanTakesRun(pat: Pattern, s: string, p: nat, e: nat)
    requires p < e <= |s| && AllDigits(s[p..e])
    requires e == |s| || !IsDigit(s[e])
    requires !ContinuesAt(pat, s, e)
    ensures Scan(pat, s, p) == if e - p >= MinRun(pat) then [Span(p, e)] + Scan(pat, s, e) else Scan(pat, s, e)
    decreases e - p
  {
    RunMatch(pat, s, p, e);
    if e - p < MinRun(pat) {
      assert Scan(pat, s, p) == Scan(pat, s, p + 1);
      if p + 1 < e {
        assert s[p + 1..e] == s[p..e][1..];
        ScanTakesRun(pat, s, p + 1, e);
      }
    }
  }

  /** A single span found makes up the whole of findall's result. */
  lemma ScanOfOne(pat: Pattern, s: string, a: nat, b: nat)
    requires a < b <= |s|
    requires Scan(pat, s, 0) == [Span(a, b)] + Scan(pat, s, b)
    requires Scan(pat, s, b) == Scan(pat, s, |s|)
    ensures Scan(pat, s, 0) == [Span(a, b)]
  {
    assert Scan(pat, s, |s|) == [];
  }

  // ---------------------------------------------------------------------------
  // What a token looks like, and what the script takes from the matches

  /**
   * A token starts and ends with a digit and is at least two (Python 3) or three
   * (Python 2) characters long. A Python 3 token is digits with at most one dot; a
   * Python 2 token has at most one character that is not a digit, and no newline.
   */
  lemma TokenShape(pat: Pattern, t: string)
    requires IsToken(pat, t)
    ensures |t| >= MinRun(pat) && IsDigit(t[0]) && IsDigit(t[|t| - 1])
    ensures pat.OptionalDot? ==> forall i :: 0 <= i < |t| ==> IsDigit(t[i]) || t[i] == '.'
    ensures forall i, j :: 0 <= i < j < |t| ==> IsDigit(t[i]) || IsDigit(t[j])
    ensures pat.AnyMiddle? ==> forall i :: 0 <= i < |t| ==> t[i] != '\n'
  {
    if pat.OptionalDot? && |t| >= 2 && AllDigits(t) {
    } else {
      var m :| 0 < m < |t| - 1 && (if pat.OptionalDot? then t[m] == '.' else t[m] != '\n') &&
               AllDigits(t[..m]) && AllDigits(t[m + 1..]);
      forall i | 0 <= i < |t| && i != m ensures IsDigit(t[i]) {
        if i < m {
          assert t[i] == t[..m][i];
        } else {
          assert t[i] == t[m + 1..][i - m - 1];
        }
      }
      if pat.AnyMiddle? && m < 2 {
        assert |t[m + 1..]| >= 1;
      }
    }
  }

  /**
   * `coords[0]` and `coords[1]` are the first two matches findall's specification
   * describes, and the extraction fails exactly when there are fewer than two.
   */
  lemma CoordinatesAreFirstTwoMatches(pat: Pattern, s: string, spans: seq<Span>)
    requires IsFindAll(pat, s, 0, spans)
    ensures forall i :: 0 <= i < |spans| ==> spans[i].lo <= spans[i].hi <= |s|
    ensures Coordinates(pat, s) ==
              if |spans| < 2 then Err(IndexError)
              else Ok((s[spans[0].lo..spans[0].hi], s[spans[1].lo..spans[1].hi]))
  {
    FindAllIsUnique(pat, s, 0, spans);
  }
}
