/**
 * Disambiguation: from the decoded suggestion response and the user's answer to the
 * prompt, the identifier of the address to look up, or the reason the run stops.
 *
 *   - numFound == 0: nothing is looked up.
 *   - numFound == 1: docs[0] is taken without a prompt.
 *   - otherwise: the listed docs are numbered 1..j, `options` becomes range(1, j + 1),
 *     and a choice n is accepted only when int(n) is in `options`; the id looked up is
 *     then docs[n - 1].id. Any other number quits.
 *
 * The versions differ in how the answer is read. Python 3 reads text and calls int()
 * on it, which raises ValueError for text that is not an integer. Python 2's input()
 * evaluates what was typed; the script tests int() of that value against `options`
 * but indexes `docs` with `number_chosen - 1`, which raises TypeError unless the value
 * is an integer: for a string the subtraction fails, for a float the index does.
 */
module Selection {
  import opened Common

  /** One suggestion document: its display name (`weergavenaam`) and its `id`. */
  datatype Suggestion = Suggestion(weergavenaam: string, id: string)

  /** The decoded suggestion response: the hit count and the documents listed. */
  datatype SuggestResponse = SuggestResponse(numFound: int, docs: seq<Suggestion>)

  /** How disambiguation ends: nothing found, an id to look up, a quit, or an exception. */
  datatype Selected =
    | NoResults
    | Chosen(id: string)
    | Cancelled
    | Crashed(error: PyError)

  /** The value Python 2's input() gives for the choice. */
  datatype Py2Choice =
    | IntValue(n: int)                // an int, long or bool: a valid list index type
    | OtherValue(asInt: Result<int>)  // any other value, with what int() makes of it

  /** Python's `range(lo, hi)`. */
  function Range(lo: int, hi: int): (r: seq<int>)
    ensures |r| == if lo <= hi then hi - lo else 0
    ensures forall i :: 0 <= i < |r| ==> r[i] == lo + i
    decreases hi - lo
  {
    if lo < hi then [lo] + Range(lo + 1, hi) else []
  }

  /** Membership in range(lo, hi) is the bound check lo <= x < hi. */
  lemma InRange(lo: int, hi: int, x: int)
    ensures x in Range(lo, hi) <==> lo <= x < hi
  {
    if lo <= x < hi {
      assert Range(lo, hi)[x - lo] == x;
    }
  }

  // ---------------------------------------------------------------------------
  // The specification of the step

  /** What the Python 3 script selects. */
  function SelectPy3(resp: SuggestResponse, choice: Option<int>): Selected
  {
    if resp.numFound == 0 then NoResults
    else if resp.numFound == 1 then
      if |resp.docs| == 0 then Crashed(IndexError) else Chosen(resp.docs[0].id)
    else
      match choice
      case None => Crashed(ValueError)
      case Some(n) => if 1 <= n <= |resp.docs| then Chosen(resp.docs[n - 1].id) else Cancelled
  }

  /** What the Python 2 script selects. */
  function SelectPy2(resp: SuggestResponse, choice: Py2Choice): Selected
  {
    if resp.numFound == 0 then NoResults
    else if resp.numFound == 1 then
      if |resp.docs| == 0 then Crashed(IndexError) else Chosen(resp.docs[0].id)
    else
      match choice
      case IntValue(n) => if 1 <= n <= |resp.docs| then Chosen(resp.docs[n - 1].id) else Cancelled
      case OtherValue(Err(e)) => Crashed(e)
      case OtherValue(Ok(m)) => if 1 <= m <= |resp.docs| then Crashed(TypeError) else Cancelled
  }

  // ---------------------------------------------------------------------------
  // The script's steps

  /**
   * The listing loop: numbers the docs from 1 as it prints them, then extends
   * `options` with range(1, j + 1). The printed lines are returned as pairs.
   */
  method ListDocs(docs: seq<Suggestion>) returns (j: int, options: seq<int>, listing: seq<(int, string)>)
    ensures j == |docs|
    ensures options == Range(1, j + 1)
    ensures |listing| == |docs|
    ensures forall k :: 0 <= k < |docs| ==> listing[k] == (k + 1, docs[k].weergavenaam)
  {
    j := 0;
    listing := [];
    for i := 0 to |docs|
      invariant j == i && |listing| == i
      invariant forall k :: 0 <= k < i ==> listing[k] == (k + 1, docs[k].weergavenaam)
    {
      j := j + 1;
      listing := listing + [(j, docs[i].weergavenaam)];
    }
    options := [];
    options := options + Range(1, j + 1);
  }

  /** Disambiguation as the Python 3 script performs it. */
  method DisambiguatePy3(resp: SuggestResponse, choice: Option<int>) returns (sel: Selected, listing: seq<(int, string)>)
    ensures sel == SelectPy3(resp, choice)
    ensures resp.numFound !in {0, 1} ==>
              |listing| == |resp.docs| &&
              forall k :: 0 <= k < |resp.docs| ==> listing[k] == (k + 1, resp.docs[k].weergavenaam)
  {
    listing := [];
    if resp.numFound == 0 {
      sel := NoResults;
    } else if resp.numFound == 1 {
      if |resp.docs| == 0 {
        sel := Crashed(IndexError);
      } else {
        sel := Chosen(resp.docs[0].id);
      }
    } else {
      var j, options;
      j, options, listing := ListDocs(resp.docs);
      match choice {
        case None =>
          sel := Crashed(ValueError);
        case Some(n) =>
          InRange(1, j + 1, n);
          if n in options {
            sel := Chosen(resp.docs[n - 1].id);
          } else {
            sel := Cancelled;
          }
      }
    }
  }

  /** Disambiguation as the Python 2 script performs it. */
  method DisambiguatePy2(resp: SuggestResponse, choice: Py2Choice) returns (sel: Selected, listing: seq<(int, string)>)
    ensures sel == SelectPy2(resp, choice)
    ensures resp.numFound !in {0, 1} ==>
              |listing| == |resp.docs| &&
              forall k :: 0 <= k < |resp.docs| ==> listing[k] == (k + 1, resp.docs[k].weergavenaam)
  {
    listing := [];
    if resp.numFound == 0 {
      sel := NoResults;
    } else if resp.numFound == 1 {
      if |resp.docs| == 0 {
        sel := Crashed(IndexError);
      } else {
        sel := Chosen(resp.docs[0].id);
      }
    } else {
      var j, options;
      j, options, listing := ListDocs(resp.docs);
      match choice {
        case IntValue(n) =>
          InRange(1, j + 1, n);
          if n in options {
            sel := Chosen(resp.docs[n - 1].id);
          } else {
            sel := Cancelled;
          }
        case OtherValue(Err(e)) =>
          sel := Crashed(e);
        case OtherValue(Ok(m)) =>
          InRange(1, j + 1, m);
          if m in options {
            sel := Crashed(TypeError);
          } else {
            sel := Cancelled;
          }
      }
    }
  }

  // ---------------------------------------------------------------------------
  // Properties

  /** Nothing is selected exactly when the service found nothing. */
  lemma NoResultsIffNothingFound(resp: SuggestResponse, c3: Option<int>, c2: Py2Choice)
    ensures SelectPy3(resp, c3) == NoResults <==> resp.numFound == 0
    ensures SelectPy2(resp, c2) == NoResults <==> resp.numFound == 0
  {
  }

  /** A single hit is taken without a prompt: the answer plays no part. */
  lemma SingleHitIgnoresChoice(resp: SuggestResponse, c: Option<int>, d: Option<int>, c2: Py2Choice)
    requires resp.numFound == 1 && |resp.docs| > 0
    ensures SelectPy3(resp, c) == SelectPy3(resp, d) == Chosen(resp.docs[0].id)
    ensures SelectPy2(resp, c2) == Chosen(resp.docs[0].id)
  {
  }

  /**
   * With several hits, typing the number printed next to a document selects exactly
   * that document, in both versions.
   */
  lemma ListedNumberSelectsDoc(resp: SuggestResponse, k: nat)
    requires resp.numFound != 0 && resp.numFound != 1
    requires k < |resp.docs|
    ensures SelectPy3(resp, Some(k + 1)) == Chosen(resp.docs[k].id)
    ensures SelectPy2(resp, IntValue(k + 1)) == Chosen(resp.docs[k].id)
  {
  }

  /**
   * With several hits, an id is selected only for a number n in 1..j, and it is the id
   * of the n-th listed document; every other integer, 0 included, quits.
   */
  lemma ChosenOnlyFromListedNumbers(resp: SuggestResponse, choice: Option<int>)
    requires resp.numFound != 0 && resp.numFound != 1
    ensures SelectPy3(resp, choice).Chosen? <==>
              choice.Some? && 1 <= choice.value <= |resp.docs|
    ensures SelectPy3(resp, choice).Chosen? ==>
              SelectPy3(resp, choice).id == resp.docs[choice.value - 1].id
    ensures choice.Some? && !(1 <= choice.value <= |resp.docs|) ==> SelectPy3(resp, choice) == Cancelled
    ensures choice.None? ==> SelectPy3(resp, choice) == Crashed(ValueError)
  {
  }

  /**
   * Python 2 agrees with Python 3 when the answer is an integer; any other value is
   * never selected: it quits, or raises when int() of it falls in the listed range.
   */
  lemma Py2AgreesOnIntegers(resp: SuggestResponse, n: int, v: Result<int>)
    ensures SelectPy2(resp, IntValue(n)) == SelectPy3(resp, Some(n))
    ensures !SelectPy2(resp, OtherValue(v)).Chosen? || resp.numFound == 1
  {
  }
}
