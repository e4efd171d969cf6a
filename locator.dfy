/**
 * One run of the script, per version: disambiguate the suggestions, look up the
 * chosen id, fill the address dict, add the description, and append the record to
 * `addresses.csv`. The suggestion response, the answer to the prompt, the lookup
 * service and the description are parameters; the file is a `CsvFile`.
 */
module Locator {
  import opened Common
  import opened CoordinateTokens
  import opened Selection
  import opened AddressRecord
  import opened AddressFile
  import opened CentroidFormats

  /** The lookup service: the documents returned for an id. */
  type Lookup = string -> seq<LookupDoc>

  /** How a run ends. */
  datatype Outcome =
    | NothingFound                         // numFound == 0
    | Quit                                 // a number outside the list
    | Written(row: seq<string>)            // the record was appended
    | Failed(error: PyError)               // an exception before the file is touched
    | FailedWhileWriting(error: PyError)  // Python 2: latin1ify failed after the header step

  // ---------------------------------------------------------------------------
  // The specification of a run

  /** The outcome of the Python 3 script. */
  ghost function OutcomePy3(resp: SuggestResponse, choice: Option<int>, lookup: Lookup, description: string): Outcome
  {
    match SelectPy3(resp, choice)
    case NoResults => NothingFound
    case Cancelled => Quit
    case Crashed(e) => Failed(e)
    case Chosen(id) =>
      match Assembled(OptionalDot, lookup(id))
      case Err(e) => Failed(e)
      case Ok(address) => Written(RowOf(WithDescription(address, description)))
  }

  /** The outcome of the Python 2 script. */
  ghost function OutcomePy2(resp: SuggestResponse, choice: Py2Choice, lookup: Lookup, description: string): Outcome
  {
    match SelectPy2(resp, choice)
    case NoResults => NothingFound
    case Cancelled => Quit
    case Crashed(e) => Failed(e)
    case Chosen(id) =>
      match Assembled(AnyMiddle, lookup(id))
      case Err(e) => Failed(e)
      case Ok(address) =>
        match Latin1ify(WithDescription(address, description))
        case Err(e) => FailedWhileWriting(e)
        case Ok(encoded) => Written(RowOf(Decoded(encoded)))
  }

  /** The file after a run that ended with `outcome`. */
  function FileAfter(rows: seq<seq<string>>, outcome: Outcome): seq<seq<string>>
  {
    match outcome
    case Written(row) => Appended(rows, row)
    case FailedWhileWriting(_) => WithHeader(rows)
    case _ => rows
  }

  // ---------------------------------------------------------------------------
  // The runs

  /** The Python 3 script. */
  method RunPy3(resp: SuggestResponse, choice: Option<int>, lookup: Lookup, description: string, file: CsvFile)
    returns (outcome: Outcome)
    modifies file
    ensures outcome == OutcomePy3(resp, choice, lookup, description)
    ensures file.rows == FileAfter(old(file.rows), outcome)
  {
    var sel, listing := DisambiguatePy3(resp, choice);
    match sel {
      case NoResults => outcome := NothingFound;
      case Cancelled => outcome := Quit;
      case Crashed(e) => outcome := Failed(e);
      case Chosen(id) =>
        var populated := Populate(OptionalDot, lookup(id));
        if populated.Err? {
          return Failed(populated.error);
        }
        var address := populated.value[Description := description];
        var row := RowOf(address);
        file.AppendRecord(row);
        outcome := Written(row);
    }
  }

  /** The Python 2 script: the header step comes before latin1ify, which may raise. */
  method RunPy2(resp: SuggestResponse, choice: Py2Choice, lookup: Lookup, description: string, file: CsvFile)
    returns (outcome: Outcome)
    modifies file
    ensures outcome == OutcomePy2(resp, choice, lookup, description)
    ensures file.rows == FileAfter(old(file.rows), outcome)
  {
    var sel, listing := DisambiguatePy2(resp, choice);
    match sel {
      case NoResults => outcome := NothingFound;
      case Cancelled => outcome := Quit;
      case Crashed(e) => outcome := Failed(e);
      case Chosen(id) =>
        var populated := Populate(AnyMiddle, lookup(id));
        if populated.Err? {
          return Failed(populated.error);
        }
        var address := populated.value[Description := description];
        assert address == WithDescription(Assembled(AnyMiddle, lookup(id)).value, description);
        var n := file.FileLen();
        if n == 0 {
          file.WriteHeader();
        }
        assert file.rows == WithHeader(old(file.rows));
        var encoded := Latin1ify(address);
        if encoded.Err? {
          return FailedWhileWriting(encoded.error);
        }
        var row := RowOf(Decoded(encoded.value));
        file.WriteRow(row);
        outcome := Written(row);
    }
  }

  // ---------------------------------------------------------------------------
  // Properties

  /**
   * A row is written exactly when an id was selected and every looked-up centroid
   * has two coordinate tokens; nothing found, a quit, a bad answer or a short
   * centroid leave the file as it was.
   */
  lemma RowOnlyForChosenAddress(resp: SuggestResponse, choice: Option<int>, lookup: Lookup, description: string)
    ensures OutcomePy3(resp, choice, lookup, description).Written? <==>
              SelectPy3(resp, choice).Chosen? &&
              forall i :: 0 <= i < |lookup(SelectPy3(resp, choice).id)| ==>
                |FindAll(OptionalDot, lookup(SelectPy3(resp, choice).id)[i].centroide_rd)| >= 2
    ensures resp.numFound == 0 ==> OutcomePy3(resp, choice, lookup, description) == NothingFound
    ensures !OutcomePy3(resp, choice, lookup, description).FailedWhileWriting?
  {
    if SelectPy3(resp, choice).Chosen? {
      AssembledFailsIff(OptionalDot, lookup(SelectPy3(resp, choice).id));
    }
  }

  /**
   * The written row, read back by column: the description, the last document's
   * fields and coordinates, and the postcode of the last document that has one,
   * or a blank.
   */
  lemma WrittenRowContents(resp: SuggestResponse, choice: Option<int>, lookup: Lookup, description: string)
    requires OutcomePy3(resp, choice, lookup, description).Written?
    ensures var docs := lookup(SelectPy3(resp, choice).id);
            var back := ReadRow(OutcomePy3(resp, choice, lookup, description).row);
            (forall f :: f in back) &&
            back[Description] == description &&
            (docs == [] ==> forall f :: f != Description ==> back[f] == "") &&
            (docs != [] ==>
               var last := docs[|docs| - 1];
               back[Street] == last.straatnaam && back[HouseNumber] == last.huis_nlt &&
               back[PlaceName] == last.woonplaatsnaam && back[Municipality] == last.gemeentenaam &&
               back[Province] == last.provincienaam &&
               Coordinates(OptionalDot, last.centroide_rd) == Ok((back[RdX], back[RdY])) &&
               back[PostalCode] == (if LastPostcode(docs).Some? then LastPostcode(docs).value else ""))
  {
    var docs := lookup(SelectPy3(resp, choice).id);
    assert OutcomePy3(resp, choice, lookup, description).row ==
           RowOf(WithDescription(Assembled(OptionalDot, docs).value, description));
    RecordReadsBack(OptionalDot, docs, description);
  }

  /**
   * The Python 2 written row, read back by column: latin1ify and the decoding that
   * writes it as text give the dict back, so the row holds the description, the last
   * document's fields and `\d+.\d+` coordinates, and the last postcode or a blank.
   */
  lemma WrittenRowContentsPy2(resp: SuggestResponse, choice: Py2Choice, lookup: Lookup, description: string)
    requires OutcomePy2(resp, choice, lookup, description).Written?
    ensures var docs := lookup(SelectPy2(resp, choice).id);
            var back := ReadRow(OutcomePy2(resp, choice, lookup, description).row);
            (forall f :: f in back) &&
            back[Description] == description &&
            (docs == [] ==> forall f :: f != Description ==> back[f] == "") &&
            (docs != [] ==>
               var last := docs[|docs| - 1];
               back[Street] == last.straatnaam && back[HouseNumber] == last.huis_nlt &&
               back[PlaceName] == last.woonplaatsnaam && back[Municipality] == last.gemeentenaam &&
               back[Province] == last.provincienaam &&
               Coordinates(AnyMiddle, last.centroide_rd) == Ok((back[RdX], back[RdY])) &&
               back[PostalCode] == (if LastPostcode(docs).Some? then LastPostcode(docs).value else ""))
  {
    var docs := lookup(SelectPy2(resp, choice).id);
    var d := WithDescription(Assembled(AnyMiddle, docs).value, description);
    Latin1ifyPreservesEntries(d);
    var decoded := Decoded(Latin1ify(d).value);
    assert decoded.Keys == d.Keys;
    forall f | f in decoded ensures decoded[f] == d[f] {
    }
    assert decoded == d;
    assert OutcomePy2(resp, choice, lookup, description).row == RowOf(d);
    RecordReadsBack(AnyMiddle, docs, description);
  }

  /**
   * Python 2 fails while writing exactly when an id was chosen, every looked-up
   * centroid has two tokens, and some value of the dict (the description included)
   * is not Latin-1 text. The file is then left with the header step done: a new file
   * holds only the header, and any other file is unchanged.
   */
  lemma EncodingFailureLeavesHeader(resp: SuggestResponse, choice: Py2Choice, lookup: Lookup, description: string,
                                    rows: seq<seq<string>>)
    ensures var outcome := OutcomePy2(resp, choice, lookup, description);
            outcome.FailedWhileWriting? <==>
              SelectPy2(resp, choice).Chosen? &&
              Assembled(AnyMiddle, lookup(SelectPy2(resp, choice).id)).Ok? &&
              exists f :: f in WithDescription(Assembled(AnyMiddle, lookup(SelectPy2(resp, choice).id)).value, description) &&
                !IsLatin1(WithDescription(Assembled(AnyMiddle, lookup(SelectPy2(resp, choice).id)).value, description)[f])
    ensures var outcome := OutcomePy2(resp, choice, lookup, description);
            outcome.FailedWhileWriting? ==>
              FileAfter(rows, outcome) == (if rows == [] then [HeaderRow()] else rows)
  {
  }

  /**
   * The two versions write the same row when the answer is an integer, both
   * patterns give the same coordinates for every looked-up centroid, and every
   * value is Latin-1 text.
   */
  lemma VersionsAgree(resp: SuggestResponse, n: int, lookup: Lookup, description: string)
    requires SelectPy3(resp, Some(n)).Chosen? ==>
               var docs := lookup(SelectPy3(resp, Some(n)).id);
               forall i :: 0 <= i < |docs| ==>
                 Coordinates(AnyMiddle, docs[i].centroide_rd) == Coordinates(OptionalDot, docs[i].centroide_rd)
    requires OutcomePy3(resp, Some(n), lookup, description).Written? ==>
               forall i :: 0 <= i < |Fieldnames| ==> IsLatin1(OutcomePy3(resp, Some(n), lookup, description).row[i])
    ensures OutcomePy2(resp, IntValue(n), lookup, description) == OutcomePy3(resp, Some(n), lookup, description)
  {
    Py2AgreesOnIntegers(resp, n, Ok(n));
    if SelectPy3(resp, Some(n)).Chosen? {
      var docs := lookup(SelectPy3(resp, Some(n)).id);
      AssembledAgreeOnCoordinates(AnyMiddle, OptionalDot, docs);
      if Assembled(OptionalDot, docs).Ok? {
        Latin1RowUnchanged(WithDescription(Assembled(OptionalDot, docs).value, description));
      }
    }
  }

  /**
   * A worked run: three suggestions, the second chosen, one lookup document with
   * the centroid "POINT(123456.78 654321.12)", the description "office", and a new
   * file: the file ends with the header and one row, whose Postal_code cell is the
   * document's postcode, or a blank when it has none.
   */
  lemma ChooseSecondOfThree(resp: SuggestResponse, lookup: Lookup, doc: LookupDoc, description: string, file: seq<seq<string>>)
    requires resp.numFound == 3 && |resp.docs| == 3
    requires lookup(resp.docs[1].id) == [doc]
    requires doc.centroide_rd == "POINT(123456.78 654321.12)"
    requires description == "office" && file == []
    ensures var outcome := OutcomePy3(resp, Some(2), lookup, description);
            var pc := if doc.postcode.Some? then doc.postcode.value else "";
            outcome == Written([description, doc.straatnaam, doc.huis_nlt, pc, doc.woonplaatsnaam,
                                doc.gemeentenaam, doc.provincienaam, "123456.78", "654321.12"]) &&
            FileAfter(file, outcome) == [HeaderRow(), outcome.row]
  {
    CentroidWithDecimals(OptionalDot, doc.centroide_rd);
    assert AllCentroidsParse(OptionalDot, [doc]);
    assert LastPostcode([doc]) == doc.postcode;
  }

  /** With a single hit, whatever is typed, a new file gets the header and that address's row. */
  lemma SingleHitAppends(resp: SuggestResponse, c: Option<int>, lookup: Lookup, description: string)
    requires resp.numFound == 1 && |resp.docs| > 0
    requires Assembled(OptionalDot, lookup(resp.docs[0].id)).Ok?
    ensures OutcomePy3(resp, c, lookup, description) ==
              Written(RowOf(WithDescription(Assembled(OptionalDot, lookup(resp.docs[0].id)).value, description)))
    ensures FileAfter([], OutcomePy3(resp, c, lookup, description)) ==
              [HeaderRow(), OutcomePy3(resp, c, lookup, description).row]
  {
  }

  /**
   * Python 2: the lookup reaches the file exactly when an id was selected and every
   * looked-up centroid has two tokens of `\d+.\d+`; it then fails only when a value
   * is not Latin-1 text, and otherwise writes the row.
   */
  lemma RowOnlyForChosenAddressPy2(resp: SuggestResponse, choice: Py2Choice, lookup: Lookup, description: string)
    ensures var outcome := OutcomePy2(resp, choice, lookup, description);
            (outcome.Written? || outcome.FailedWhileWriting?) <==>
              SelectPy2(resp, choice).Chosen? &&
              forall i :: 0 <= i < |lookup(SelectPy2(resp, choice).id)| ==>
                |FindAll(AnyMiddle, lookup(SelectPy2(resp, choice).id)[i].centroide_rd)| >= 2
    ensures resp.numFound == 0 ==> OutcomePy2(resp, choice, lookup, description) == NothingFound
    ensures OutcomePy2(resp, choice, lookup, description).FailedWhileWriting? ==>
              OutcomePy2(resp, choice, lookup, description).error == UnicodeEncodeError
  {
    if SelectPy2(resp, choice).Chosen? {
      AssembledFailsIff(AnyMiddle, lookup(SelectPy2(resp, choice).id));
    }
  }

  /**
   * A single hit whose centroid has no decimals: Python 3 writes its coordinates,
   * while Python 2 reads one token, raises IndexError, and leaves the file as it was.
   */
  lemma IntegerCentroidOnlyPy3Writes(resp: SuggestResponse, lookup: Lookup, doc: LookupDoc, description: string,
                                     file: seq<seq<string>>, c3: Option<int>, c2: Py2Choice)
    requires resp.numFound == 1 && |resp.docs| > 0
    requires lookup(resp.docs[0].id) == [doc]
    requires doc.centroide_rd == "POINT(123456 654321)"
    ensures OutcomePy2(resp, c2, lookup, description) == Failed(IndexError)
    ensures FileAfter(file, OutcomePy2(resp, c2, lookup, description)) == file
    ensures OutcomePy3(resp, c3, lookup, description).Written?
  {
    CentroidWithIntegersPy2(doc.centroide_rd);
    CentroidWithIntegersPy3(doc.centroide_rd);
    assert [doc][0] == doc;
    assert Coordinates(AnyMiddle, [doc][0].centroide_rd).Err?;
    assert AllCentroidsParse(OptionalDot, [doc]);
  }
}
