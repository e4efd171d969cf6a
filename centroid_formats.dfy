/**
 * What the two coordinate patterns extract from the centroid strings the lookup
 * service returns (`POINT(x y)`) and from a few shapes at the edges of the patterns:
 * integer coordinates, a lone digit, a trailing dot.
 */
module CentroidFormats {
  import opened Common
  import opened CoordinateTokens

  predicate NoDigits(t: string)
  {
    forall i :: 0 <= i < |t| ==> !IsDigit(t[i])
  }

  /** The centroid as the lookup service writes it. */
  function PointText(x: string, y: string): string
  {
    "POINT(" + x + " " + y + ")"
  }

  lemma SubstringsOfTwo(s: string, a: nat, b: nat, c: nat, d: nat)
    requires a <= b <= c <= d <= |s|
    ensures Substrings(s, [Span(a, b), Span(c, d)]) == [s[a..b], s[c..d]]
  {
  }

  /** Where the parts of pre + x + [sep] + y + post sit. */
  lemma PairLayout(pre: string, x: string, sep: char, y: string, post: string)
    requires NoDigits(pre) && NoDigits(post)
    ensures var s := pre + x + [sep] + y + post;
            var b := |pre| + |x|;
            var d := b + 1 + |y|;
            d < |s| + 1 && |s| == d + |post| &&
            s[|pre|..b] == x && s[b] == sep && s[b + 1..d] == y &&
            (forall i :: 0 <= i < |pre| ==> !IsDigit(s[i])) &&
            (forall i :: d <= i < |s| ==> !IsDigit(s[i]))
  {
    var s := pre + x + [sep] + y + post;
    var d := |pre| + |x| + 1 + |y|;
    forall i | 0 <= i < |pre| ensures !IsDigit(s[i]) {
      assert s[i] == pre[i];
    }
    forall i | d <= i < |s| ensures !IsDigit(s[i]) {
      assert s[i] == post[i - d];
    }
  }

  /** Non-digits up to a, then the decimal w.f ending at e: findall reports it first. */
  lemma DecimalAfterNonDigits(pat: Pattern, s: string, from: nat, a: nat, w: string, f: string, e: nat)
    requires |w| > 0 && |f| > 0 && AllDigits(w) && AllDigits(f)
    requires from <= a && e == a + |w| + 1 + |f| <= |s|
    requires forall i :: from <= i < a ==> !IsDigit(s[i])
    requires s[a..e] == w + "." + f
    requires e == |s| || !IsDigit(s[e])
    ensures Scan(pat, s, from) == [Span(a, e)] + Scan(pat, s, e)
  {
    assert s[a + |w|] == s[a..e][|w|] == '.';
    ScanSkipsNonDigits(pat, s, from, a);
    ScanTakesSplit(pat, s, a, w, '.', f, e);
  }

  /** A non-digit at b, then the decimal w.f ending at d, then no digits: the last match. */
  lemma LastDecimal(pat: Pattern, s: string, b: nat, w: string, f: string, d: nat)
    requires |w| > 0 && |f| > 0 && AllDigits(w) && AllDigits(f)
    requires d == b + 1 + |w| + 1 + |f| <= |s| && !IsDigit(s[b])
    requires s[b + 1..d] == w + "." + f
    requires forall i :: d <= i < |s| ==> !IsDigit(s[i])
    ensures Scan(pat, s, b) == [Span(b + 1, d)]
  {
    DecimalAfterNonDigits(pat, s, b, b + 1, w, f, d);
    ScanSkipsNonDigits(pat, s, d, |s|);
    assert Scan(pat, s, |s|) == [];
  }

  /** findall over a string laid out as no digits, x, sep, y, no digits, with x and y decimals. */
  lemma DecimalPairAt(pat: Pattern, s: string, w1: string, f1: string, w2: string, f2: string, a: nat, b: nat, d: nat)
    requires |w1| > 0 && |f1| > 0 && |w2| > 0 && |f2| > 0
    requires AllDigits(w1) && AllDigits(f1) && AllDigits(w2) && AllDigits(f2)
    requires b == a + |w1| + 1 + |f1| && d == b + 1 + |w2| + 1 + |f2| && d <= |s|
    requires forall i :: 0 <= i < a ==> !IsDigit(s[i])
    requires s[a..b] == w1 + "." + f1 && !IsDigit(s[b]) && s[b + 1..d] == w2 + "." + f2
    requires forall i :: d <= i < |s| ==> !IsDigit(s[i])
    ensures FindAll(pat, s) == [s[a..b], s[b + 1..d]]
  {
    DecimalAfterNonDigits(pat, s, 0, a, w1, f1, b);
    LastDecimal(pat, s, b, w2, f2, d);
    assert Scan(pat, s, 0) == [Span(a, b), Span(b + 1, d)];
    SubstringsOfTwo(s, a, b, b + 1, d);
  }

  /**
   * Two decimal numbers between text without digits, separated by one character
   * that is not a digit: both patterns find exactly the two numbers, in order.
   */
  lemma DecimalPair(pat: Pattern, pre: string, w1: string, f1: string, sep: char, w2: string, f2: string, post: string)
    requires |w1| > 0 && |f1| > 0 && |w2| > 0 && |f2| > 0
    requires AllDigits(w1) && AllDigits(f1) && AllDigits(w2) && AllDigits(f2)
    requires NoDigits(pre) && NoDigits(post) && !IsDigit(sep)
    ensures FindAll(pat, pre + (w1 + "." + f1) + [sep] + (w2 + "." + f2) + post) == [w1 + "." + f1, w2 + "." + f2]
  {
    var x, y := w1 + "." + f1, w2 + "." + f2;
    PairLayout(pre, x, sep, y, post);
    DecimalPairAt(pat, pre + x + [sep] + y + post, w1, f1, w2, f2, |pre|, |pre| + |x|, |pre| + |x| + 1 + |y|);
  }

  /** Non-digits up to a, then a digit run w ending at e that nothing continues. */
  lemma RunAfterNonDigits(pat: Pattern, s: string, from: nat, a: nat, w: string, e: nat)
    requires |w| >= MinRun(pat) && AllDigits(w)
    requires from <= a && e == a + |w| <= |s|
    requires forall i :: from <= i < a ==> !IsDigit(s[i])
    requires s[a..e] == w
    requires e == |s| || !IsDigit(s[e])
    requires !ContinuesAt(pat, s, e)
    ensures Scan(pat, s, from) == [Span(a, e)] + Scan(pat, s, e)
  {
    ScanSkipsNonDigits(pat, s, from, a);
    ScanTakesRun(pat, s, a, e);
  }

  /** Python 3: a character that is neither a digit nor a dot at b, then the integer w ending at d, then no digits: the last match. */
  lemma LastRun(s: string, b: nat, w: string, d: nat)
    requires |w| >= 2 && AllDigits(w)
    requires d == b + 1 + |w| <= |s| && !IsDigit(s[b]) && s[b] != '.'
    requires s[b + 1..d] == w
    requires forall i :: d <= i < |s| ==> !IsDigit(s[i])
    ensures Scan(OptionalDot, s, b) == [Span(b + 1, d)]
  {
    RunAfterNonDigits(OptionalDot, s, b, b + 1, w, d);
    ScanSkipsNonDigits(OptionalDot, s, d, |s|);
    assert Scan(OptionalDot, s, |s|) == [];
  }

  /** Python 3 over no digits, w1, sep, w2, no digits, with integers w1 and w2. */
  lemma IntegerPairAt(s: string, w1: string, w2: string, a: nat, b: nat, d: nat)
    requires |w1| >= 2 && |w2| >= 2 && AllDigits(w1) && AllDigits(w2)
    requires b == a + |w1| && d == b + 1 + |w2| && d <= |s|
    requires forall i :: 0 <= i < a ==> !IsDigit(s[i])
    requires s[a..b] == w1 && !IsDigit(s[b]) && s[b] != '.' && s[b + 1..d] == w2
    requires forall i :: d <= i < |s| ==> !IsDigit(s[i])
    ensures FindAll(OptionalDot, s) == [s[a..b], s[b + 1..d]]
  {
    RunAfterNonDigits(OptionalDot, s, 0, a, w1, b);
    LastRun(s, b, w2, d);
    assert Scan(OptionalDot, s, 0) == [Span(a, b), Span(b + 1, d)];
    SubstringsOfTwo(s, a, b, b + 1, d);
  }

  /**
   * Python 3: two integers of at least two digits, between text without digits and
   * separated by a character that is neither a digit nor a dot, are found apart.
   */
  lemma IntegerPairPy3(pre: string, w1: string, sep: char, w2: string, post: string)
    requires |w1| >= 2 && |w2| >= 2 && AllDigits(w1) && AllDigits(w2)
    requires NoDigits(pre) && NoDigits(post) && !IsDigit(sep) && sep != '.'
    ensures FindAll(OptionalDot, pre + w1 + [sep] + w2 + post) == [w1, w2]
  {
    PairLayout(pre, w1, sep, w2, post);
    IntegerPairAt(pre + w1 + [sep] + w2 + post, w1, w2, |pre|, |pre| + |w1|, |pre| + |w1| + 1 + |w2|);
  }

  /** Python 2 over no digits, w1, sep, w2, no digits: one token spans both integers. */
  lemma MergedPairAt(s: string, w1: string, sep: char, w2: string, a: nat, b: nat, d: nat)
    requires |w1| > 0 && |w2| > 0 && AllDigits(w1) && AllDigits(w2)
    requires !IsDigit(sep) && sep != '\n'
    requires b == a + |w1| && d == b + 1 + |w2| && d <= |s|
    requires forall i :: 0 <= i < a ==> !IsDigit(s[i])
    requires s[a..b] == w1 && s[b] == sep && s[b + 1..d] == w2
    requires forall i :: d <= i < |s| ==> !IsDigit(s[i])
    ensures FindAll(AnyMiddle, s) == [s[a..d]]
  {
    assert s[a..d] == s[a..b] + [s[b]] + s[b + 1..d];
    ScanSkipsNonDigits(AnyMiddle, s, 0, a);
    ScanTakesSplit(AnyMiddle, s, a, w1, sep, w2, d);
    ScanSkipsNonDigits(AnyMiddle, s, d, |s|);
    ScanOfOne(AnyMiddle, s, a, d);
  }

  /**
   * Python 2: two integers between text without digits, separated by one character
   * that is neither a digit nor a newline, come out as ONE token, because the
   * unescaped dot of `\d+.\d+` matches the separator.
   */
  lemma IntegerPairPy2(pre: string, w1: string, sep: char, w2: string, post: string)
    requires |w1| > 0 && |w2| > 0 && AllDigits(w1) && AllDigits(w2)
    requires NoDigits(pre) && NoDigits(post) && !IsDigit(sep) && sep != '\n'
    ensures FindAll(AnyMiddle, pre + w1 + [sep] + w2 + post) == [w1 + [sep] + w2]
  {
    var s := pre + w1 + [sep] + w2 + post;
    PairLayout(pre, w1, sep, w2, post);
    MergedPairAt(s, w1, sep, w2, |pre|, |pre| + |w1|, |pre| + |w1| + 1 + |w2|);
    assert s[|pre|..|pre| + |w1| + 1 + |w2|] == w1 + [sep] + w2;
  }

  /**
   * A string of digits alone is one token when it is long enough for the pattern
   * (two digits for Python 3, three for Python 2) and yields nothing otherwise.
   */
  lemma DigitsAlone(pat: Pattern, w: string)
    requires |w| > 0 && AllDigits(w)
    ensures FindAll(pat, w) == if |w| >= MinRun(pat) then [w] else []
  {
    assert w[0..|w|] == w;
    ScanTakesRun(pat, w, 0, |w|);
  }

  /** A number with a dot and nothing after it: the dot is not part of the token. */
  lemma TrailingDot(pat: Pattern, w: string)
    requires |w| > 0 && AllDigits(w)
    ensures FindAll(pat, w + ".") == if |w| >= MinRun(pat) then [w] else []
  {
    var s := w + ".";
    assert s[0..|w|] == w;
    ScanTakesRun(pat, s, 0, |w|);
    ScanSkipsNonDigits(pat, s, |w|, |s|);
  }

  // ---------------------------------------------------------------------------
  // Instances (each string is a parameter fixed by the requires clause, so that the
  // verifier reasons from the lemmas above instead of unfolding findall on a literal)

  /** Both versions read X and Y from a centroid with decimals. */
  lemma CentroidWithDecimals(pat: Pattern, centroid: string)
    requires centroid == "POINT(123456.78 654321.12)"
    ensures Coordinates(pat, centroid) == Ok(("123456.78", "654321.12"))
  {
    DecimalsLayout(centroid);
    DecimalPair(pat, "POINT(", "123456", "78", ' ', "654321", "12", ")");
  }

  /** The decimal centroid as the parts DecimalPair takes. */
  lemma DecimalsLayout(centroid: string)
    requires centroid == "POINT(123456.78 654321.12)"
    ensures centroid == "POINT(" + ("123456" + "." + "78") + [' '] + ("654321" + "." + "12") + ")"
    ensures "123456" + "." + "78" == "123456.78" && "654321" + "." + "12" == "654321.12"
  {
  }

  /** Python 3 reads X and Y from a centroid without decimals. */
  lemma CentroidWithIntegersPy3(centroid: string)
    requires centroid == "POINT(123456 654321)"
    ensures Coordinates(OptionalDot, centroid) == Ok(("123456", "654321"))
  {
    IntegersLayout(centroid);
    IntegerPairPy3("POINT(", "123456", ' ', "654321", ")");
  }

  /** The integer centroid as the parts IntegerPairPy3 and IntegerPairPy2 take. */
  lemma IntegersLayout(centroid: string)
    requires centroid == "POINT(123456 654321)"
    ensures centroid == "POINT(" + "123456" + [' '] + "654321" + ")"
    ensures "123456" + [' '] + "654321" == "123456 654321"
  {
  }

  /** Python 3 splits "123 456" at the space. */
  lemma SpaceSeparatesPy3(pair: string)
    requires pair == "123 456"
    ensures FindAll(OptionalDot, pair) == ["123", "456"]
  {
    assert pair == "" + "123" + [' '] + "456" + "" by {
    }
    IntegerPairPy3("", "123", ' ', "456", "");
  }

  /** Python 2 finds a single token in a centroid without decimals, so reading Y fails. */
  lemma CentroidWithIntegersPy2(centroid: string)
    requires centroid == "POINT(123456 654321)"
    ensures FindAll(AnyMiddle, centroid) == ["123456 654321"]
    ensures Coordinates(AnyMiddle, centroid) == Err(IndexError)
  {
    IntegersLayout(centroid);
    IntegerPairPy2("POINT(", "123456", ' ', "654321", ")");
  }

  /** Python 2's `.` swallows the space: "123456 654321" is one token. */
  lemma SpaceSwallowedPy2(pair: string)
    requires pair == "123456 654321"
    ensures FindAll(AnyMiddle, pair) == [pair]
  {
    SpacedLayout(pair);
    IntegerPairPy2("", "123456", ' ', "654321", "");
  }

  /** "123456 654321" as the parts IntegerPairPy2 takes. */
  lemma SpacedLayout(pair: string)
    requires pair == "123456 654321"
    ensures pair == "123456" + [' '] + "654321"
    ensures pair == "" + "123456" + [' '] + "654321" + ""
  {
  }

  /** The short inputs at the edges of the two patterns. */
  lemma ShortInputs(seven: string, twelve: string, twelveDot: string, oneTwoThree: string)
    requires seven == "7" && twelve == "12" && twelveDot == "12." && oneTwoThree == "123"
    ensures FindAll(OptionalDot, seven) == [] && FindAll(OptionalDot, twelve) == [twelve]
    ensures FindAll(OptionalDot, twelveDot) == [twelve]
    ensures FindAll(AnyMiddle, twelve) == [] && FindAll(AnyMiddle, oneTwoThree) == [oneTwoThree]
  {
    DigitsAlone(OptionalDot, seven);
    DigitsAlone(OptionalDot, twelve);
    TrailingDot(OptionalDot, twelve);
    assert twelve + "." == twelveDot;
    DigitsAlone(AnyMiddle, twelve);
    DigitsAlone(AnyMiddle, oneTwoThree);
  }
}
