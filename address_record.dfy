/**
 * The address record: the loop over the lookup documents that fills the `address`
 * dict, the row `csv.DictWriter` makes of that dict in `fieldnames` order, what a
 * `csv.DictReader` with the same field names gives back for such a row, and
 * Python 2's `latin1ify`.
 *
 * The dict's keys are always the literal column names, so they are modelled as the
 * enumeration `Field`, with `ColumnName` giving the text of each.
 */
module AddressRecord {
  import opened Common
  import opened CoordinateTokens

  /** One lookup document, with the keys the script reads; `postcode` may be absent. */
  datatype LookupDoc = LookupDoc(
    straatnaam: string,
    huis_nlt: string,
    postcode: Option<string>,
    woonplaatsnaam: string,
    gemeentenaam: string,
    provincienaam: string,
    centroide_rd: string)

  /** The columns of the CSV file. */
  datatype Field =
    | Description | Street | HouseNumber | PostalCode | PlaceName
    | Municipality | Province | RdX | RdY

  function ColumnName(f: Field): string
  {
    match f
    case Description => "Description"
    case Street => "Street"
    case HouseNumber => "House_number"
    case PostalCode => "Postal_code"
    case PlaceName => "Place_name"
    case Municipality => "Municipality"
    case Province => "Province"
    case RdX => "RD_X_coord"
    case RdY => "RD_Y_coord"
  }

  /** `fieldnames`: the column order of the CSV file. */
  const Fieldnames: seq<Field> :=
    [Description, Street, HouseNumber, PostalCode, PlaceName, Municipality, Province, RdX, RdY]

  /** The `address` dict. */
  type Address = map<Field, string>

  /** The seven fields every processed document writes (all but Description and PostalCode). */
  function DocFields(d: LookupDoc, xy: (string, string)): Address
  {
    map[Street := d.straatnaam, HouseNumber := d.huis_nlt, PlaceName := d.woonplaatsnaam,
        Municipality := d.gemeentenaam, Province := d.provincienaam, RdX := xy.0, RdY := xy.1]
  }

  // ---------------------------------------------------------------------------
  // The specification of the lookup loop

  /** Every document's centroid yields at least two coordinate tokens. */
  ghost predicate AllCentroidsParse(pat: Pattern, docs: seq<LookupDoc>)
  {
    forall i :: 0 <= i < |docs| ==> Coordinates(pat, docs[i].centroide_rd).Ok?
  }

  /** The postcode of the last document that has one. */
  function LastPostcode(docs: seq<LookupDoc>): Option<string>
  {
    if docs == [] then None
    else if docs[|docs| - 1].postcode.Some? then docs[|docs| - 1].postcode
    else LastPostcode(docs[..|docs| - 1])
  }

  /**
   * The dict after the loop: IndexError when some centroid has fewer than two tokens;
   * otherwise empty when there are no documents, and else the last document's
   * fields and coordinates, plus the postcode of the last document that has one.
   */
  ghost function Assembled(pat: Pattern, docs: seq<LookupDoc>): Result<Address>
  {
    if !AllCentroidsParse(pat, docs) then Err(IndexError)
    else if docs == [] then Ok(map[])
    else
      var fields := DocFields(docs[|docs| - 1], Coordinates(pat, docs[|docs| - 1].centroide_rd).value);
      Ok(WithPostcode(fields, LastPostcode(docs)))
  }

  /** The fields, plus Postal_code when there is a postcode. */
  function WithPostcode(fields: Address, pc: Option<string>): Address
  {
    match pc
    case Some(v) => fields[PostalCode := v]
    case None => fields
  }

  // ---------------------------------------------------------------------------
  // The loop

  /**
   * One pass of the loop body: the document's fields overwrite the dict's, the
   * postcode only when the document has one; IndexError when its centroid has
   * fewer than two tokens.
   */
  method ApplyDoc(pat: Pattern, address: Address, detail: LookupDoc) returns (r: Result<Address>)
    ensures Coordinates(pat, detail.centroide_rd).Err? ==> r == Err(IndexError)
    ensures Coordinates(pat, detail.centroide_rd).Ok? ==>
              r == Ok(Overwrite(address, detail, Coordinates(pat, detail.centroide_rd).value))
  {
    var a := address;
    a := a[Street := detail.straatnaam];
    a := a[HouseNumber := detail.huis_nlt];
    if detail.postcode.Some? {
      a := a[PostalCode := detail.postcode.value];
    }
    a := a[PlaceName := detail.woonplaatsnaam];
    a := a[Municipality := detail.gemeentenaam];
    a := a[Province := detail.provincienaam];
    var coords := FindAll(pat, detail.centroide_rd);
    if |coords| < 1 {
      return Err(IndexError);
    }
    a := a[RdX := coords[0]];
    if |coords| < 2 {
      return Err(IndexError);
    }
    a := a[RdY := coords[1]];
    var expected := Overwrite(address, detail, (coords[0], coords[1]));
    assert a.Keys == expected.Keys;
    forall f | f in a ensures a[f] == expected[f] {
    }
    assert a == expected;
    r := Ok(a);
  }

  /** The dict after one document: its fields on top of the earlier ones. */
  function Overwrite(address: Address, d: LookupDoc, xy: (string, string)): Address
  {
    var withPostcode := if d.postcode.Some? then address[PostalCode := d.postcode.value] else address;
    withPostcode + DocFields(d, xy)
  }

  /**
   * `for detail in address_details['response']['docs']`: fills the dict from empty,
   * stopping with IndexError at the first centroid with fewer than two tokens.
   */
  method Populate(pat: Pattern, docs: seq<LookupDoc>) returns (r: Result<Address>)
    ensures r == Assembled(pat, docs)
  {
    var address: Address := map[];
    for i := 0 to |docs|
      invariant Assembled(pat, docs[..i]) == Ok(address)
    {
      var step := ApplyDoc(pat, address, docs[i]);
      if step.Err? {
        assert !AllCentroidsParse(pat, docs);
        return step;
      }
      AssembledSnoc(pat, docs[..i], docs[i]);
      assert docs[..i + 1] == docs[..i] + [docs[i]];
      address := step.value;
    }
    assert docs[..|docs|] == docs;
    r := Ok(address);
  }

  // ---------------------------------------------------------------------------
  // Properties

  /**
   * Processing one more document: every field it carries overwrites the earlier
   * value, and the postal code is kept from before when the document has none.
   */
  lemma AssembledSnoc(pat: Pattern, docs: seq<LookupDoc>, d: LookupDoc)
    requires Assembled(pat, docs).Ok? && Coordinates(pat, d.centroide_rd).Ok?
    ensures Assembled(pat, docs + [d]) ==
              Ok(Overwrite(Assembled(pat, docs).value, d, Coordinates(pat, d.centroide_rd).value))
  {
    var all := docs + [d];
    assert all[..|all| - 1] == docs;
    assert AllCentroidsParse(pat, all) by {
      forall i | 0 <= i < |all| ensures Coordinates(pat, all[i].centroide_rd).Ok? {
        if i < |docs| {
          assert all[i] == docs[i];
        }
      }
    }
    var before := Assembled(pat, docs).value;
    assert LastPostcode(all) == if d.postcode.Some? then d.postcode else LastPostcode(docs);
    OverwriteFields(before, d, Coordinates(pat, d.centroide_rd).value, LastPostcode(docs));
  }

  /**
   * Overwriting a dict that holds some document's fields, plus the postcode pc when
   * there is one: the new document's fields, plus its own postcode or else pc.
   */
  lemma OverwriteFields(before: Address, d: LookupDoc, xy: (string, string), pc: Option<string>)
    requires forall f :: f in before ==> f in DocFields(d, xy) || f == PostalCode
    requires PostalCode in before <==> pc.Some?
    requires pc.Some? ==> before[PostalCode] == pc.value
    ensures Overwrite(before, d, xy) == WithPostcode(DocFields(d, xy), if d.postcode.Some? then d.postcode else pc)
  {
    var after := Overwrite(before, d, xy);
    var expected := WithPostcode(DocFields(d, xy), if d.postcode.Some? then d.postcode else pc);
    assert after.Keys == expected.Keys;
    forall f | f in after ensures after[f] == expected[f] {
    }
    assert after == expected;
  }

  /**
   * Postal_code is in the dict exactly when some document has a postcode, and then
   * it is that of a document no later one replaces, even when a later document has none.
   */
  lemma {:induction false} PostalCodeOnlyWhenPresent(docs: seq<LookupDoc>)
    ensures LastPostcode(docs).Some? <==> exists i :: 0 <= i < |docs| && docs[i].postcode.Some?
    ensures LastPostcode(docs).Some? ==>
              exists i :: 0 <= i < |docs| && docs[i].postcode == LastPostcode(docs) &&
                          forall j :: i < j < |docs| ==> docs[j].postcode.None?
  {
    if docs != [] {
      var init := docs[..|docs| - 1];
      PostalCodeOnlyWhenPresent(init);
      if docs[|docs| - 1].postcode.None? {
        forall i | 0 <= i < |init| ensures docs[i] == init[i] { }
        if LastPostcode(init).Some? {
          var i :| 0 <= i < |init| && init[i].postcode == LastPostcode(init) &&
                   forall j :: i < j < |init| ==> init[j].postcode.None?;
          assert docs[i].postcode == LastPostcode(docs);
        }
      } else {
        assert docs[|docs| - 1].postcode == LastPostcode(docs);
      }
    }
  }

  /**
   * The loop never writes Description; with at least one document it writes every
   * other column, Postal_code exactly when some document has a postcode; with none
   * the dict stays empty.
   */
  lemma AssembledKeys(pat: Pattern, docs: seq<LookupDoc>)
    requires Assembled(pat, docs).Ok?
    ensures Description !in Assembled(pat, docs).value
    ensures docs == [] ==> Assembled(pat, docs).value == map[]
    ensures docs != [] ==>
              forall f :: f != Description && f != PostalCode ==> f in Assembled(pat, docs).value
    ensures PostalCode in Assembled(pat, docs).value <==>
              exists i :: 0 <= i < |docs| && docs[i].postcode.Some?
  {
    PostalCodeOnlyWhenPresent(docs);
  }

  /** The loop raises IndexError exactly when some document's centroid has fewer than two tokens. */
  lemma AssembledFailsIff(pat: Pattern, docs: seq<LookupDoc>)
    ensures Assembled(pat, docs).Err? <==>
              exists i :: 0 <= i < |docs| && |FindAll(pat, docs[i].centroide_rd)| < 2
    ensures Assembled(pat, docs).Err? ==> Assembled(pat, docs).error == IndexError
  {
  }

  // ---------------------------------------------------------------------------
  // Writing and reading a row

  /** Every column appears once in `fieldnames`, so the writer never meets a key it cannot place. */
  lemma FieldnamesListEveryField(f: Field)
    ensures exists i :: 0 <= i < |Fieldnames| && Fieldnames[i] == f
    ensures forall i, j :: 0 <= i < j < |Fieldnames| ==> Fieldnames[i] != Fieldnames[j]
  {
    match f
    case Description => assert Fieldnames[0] == f;
    case Street => assert Fieldnames[1] == f;
    case HouseNumber => assert Fieldnames[2] == f;
    case PostalCode => assert Fieldnames[3] == f;
    case PlaceName => assert Fieldnames[4] == f;
    case Municipality => assert Fieldnames[5] == f;
    case Province => assert Fieldnames[6] == f;
    case RdX => assert Fieldnames[7] == f;
    case RdY => assert Fieldnames[8] == f;
  }

  /** `writer.writerow(address)`: the values in column order, a blank cell for a missing key. */
  function RowOf(address: Address): (row: seq<string>)
    ensures |row| == |Fieldnames|
    ensures forall i :: 0 <= i < |Fieldnames| && Fieldnames[i] in address ==> row[i] == address[Fieldnames[i]]
    ensures forall i :: 0 <= i < |Fieldnames| && Fieldnames[i] !in address ==> row[i] == ""
  {
    seq(|Fieldnames|, i requires 0 <= i < |Fieldnames| => GetOrBlank(address, Fieldnames[i]))
  }

  /** `writer.writeheader()`: the column names themselves. */
  function HeaderRow(): (row: seq<string>)
    ensures |row| == |Fieldnames|
    ensures forall i :: 0 <= i < |Fieldnames| ==> row[i] == ColumnName(Fieldnames[i])
  {
    seq(|Fieldnames|, i requires 0 <= i < |Fieldnames| => ColumnName(Fieldnames[i]))
  }

  /** A `csv.DictReader` with the same `fieldnames` reading one row back. */
  function ReadRow(row: seq<string>): map<Field, string>
    requires |row| == |Fieldnames|
  {
    map i | 0 <= i < |Fieldnames| :: Fieldnames[i] := row[i]
  }

  /** The record with its description: the dict the script hands to the writer. */
  function WithDescription(address: Address, description: string): (r: Address)
    ensures r.Keys == address.Keys + {Description}
  {
    address[Description := description]
  }

  /**
   * Round trip: reading the written row back gives every column a value, the
   * dict's where it has one and a blank where it has none.
   */
  lemma RowRoundTrip(address: Address)
    ensures forall f :: f in ReadRow(RowOf(address))
    ensures forall f :: ReadRow(RowOf(address))[f] == GetOrBlank(address, f)
  {
    var back := ReadRow(RowOf(address));
    forall f ensures f in back && back[f] == GetOrBlank(address, f) {
      FieldnamesListEveryField(f);
      var i :| 0 <= i < |Fieldnames| && Fieldnames[i] == f;
      assert back[Fieldnames[i]] == RowOf(address)[i];
    }
  }

  /**
   * The dict after the loop, field by field: empty with no document; otherwise the
   * last document's fields and coordinates, and the postcode of the last document
   * that has one, or no postal code at all.
   */
  lemma {:induction false} AssembledValues(pat: Pattern, docs: seq<LookupDoc>)
    requires Assembled(pat, docs).Ok?
    ensures docs == [] ==> Assembled(pat, docs).value == map[]
    ensures docs != [] ==>
              var a := Assembled(pat, docs).value;
              var last := docs[|docs| - 1];
              GetOrBlank(a, Street) == last.straatnaam && GetOrBlank(a, HouseNumber) == last.huis_nlt &&
              GetOrBlank(a, PlaceName) == last.woonplaatsnaam && GetOrBlank(a, Municipality) == last.gemeentenaam &&
              GetOrBlank(a, Province) == last.provincienaam &&
              Coordinates(pat, last.centroide_rd) == Ok((GetOrBlank(a, RdX), GetOrBlank(a, RdY))) &&
              GetOrBlank(a, PostalCode) == (if LastPostcode(docs).Some? then LastPostcode(docs).value else "")
  {
    if docs != [] {
      var last := docs[|docs| - 1];
      var xy := Coordinates(pat, last.centroide_rd).value;
      var fields := DocFields(last, xy);
      var a := Assembled(pat, docs).value;
      assert a == if LastPostcode(docs).Some? then fields[PostalCode := LastPostcode(docs).value] else fields;
      assert Coordinates(pat, last.centroide_rd) == Ok(xy);
    }
  }

  /**
   * The record the script writes, read back by column: the description, the last
   * document's fields and coordinates, and the postcode of the last document that
   * has one, or a blank; with no document, every column but Description is blank.
   */
  lemma {:induction false} RecordReadsBack(pat: Pattern, docs: seq<LookupDoc>, description: string)
    requires Assembled(pat, docs).Ok?
    ensures var back := ReadRow(RowOf(WithDescription(Assembled(pat, docs).value, description)));
            (forall f :: f in back) &&
            back[Description] == description &&
            (docs == [] ==> forall f :: f != Description ==> back[f] == "") &&
            (docs != [] ==>
               var last := docs[|docs| - 1];
               back[Street] == last.straatnaam && back[HouseNumber] == last.huis_nlt &&
               back[PlaceName] == last.woonplaatsnaam && back[Municipality] == last.gemeentenaam &&
               back[Province] == last.provincienaam &&
               Coordinates(pat, last.centroide_rd) == Ok((back[RdX], back[RdY])) &&
               back[PostalCode] == (if LastPostcode(docs).Some? then LastPostcode(docs).value else ""))
  {
    var address := Assembled(pat, docs).value;
    var full := WithDescription(address, description);
    RowRoundTrip(full);
    AssembledValues(pat, docs);
    var back := ReadRow(RowOf(full));
    assert back[Description] == description;
    assert back[Street] == GetOrBlank(address, Street);
    assert back[HouseNumber] == GetOrBlank(address, HouseNumber);
    assert back[PostalCode] == GetOrBlank(address, PostalCode);
    assert back[PlaceName] == GetOrBlank(address, PlaceName);
    assert back[Municipality] == GetOrBlank(address, Municipality);
    assert back[Province] == GetOrBlank(address, Province);
    assert back[RdX] == GetOrBlank(address, RdX);
    assert back[RdY] == GetOrBlank(address, RdY);
  }

  /** The loop depends on the pattern only through the coordinates it yields. */
  lemma AssembledAgreeOnCoordinates(p: Pattern, q: Pattern, docs: seq<LookupDoc>)
    requires forall i :: 0 <= i < |docs| ==> Coordinates(p, docs[i].centroide_rd) == Coordinates(q, docs[i].centroide_rd)
    ensures Assembled(p, docs) == Assembled(q, docs)
  {
    assert AllCentroidsParse(p, docs) == AllCentroidsParse(q, docs);
  }

  // ---------------------------------------------------------------------------
  // Python 2's latin1ify

  newtype Byte = b: int | 0 <= b < 256

  /** Whether a string can be encoded as Latin-1 (every code point below 256). */
  predicate IsLatin1(s: string)
  {
    forall i :: 0 <= i < |s| ==> (s[i] as int) < 256
  }

  /** `s.encode('latin-1')`: one byte per character, or UnicodeEncodeError. */
  function EncodeLatin1(s: string): (r: Result<seq<Byte>>)
    ensures r.Ok? <==> IsLatin1(s)
    ensures r.Err? ==> r.error == UnicodeEncodeError
    ensures r.Ok? ==> |r.value| == |s| && forall i :: 0 <= i < |s| ==> r.value[i] as int == s[i] as int
  {
    if IsLatin1(s) then Ok(seq(|s|, i requires 0 <= i < |s| && IsLatin1(s) => s[i] as int as Byte))
    else Err(UnicodeEncodeError)
  }

  /** Latin-1 decoding: each byte is the code point of one character. */
  function DecodeLatin1(b: seq<Byte>): (s: string)
    ensures |s| == |b| && forall i :: 0 <= i < |b| ==> s[i] as int == b[i] as int
  {
    seq(|b|, i requires 0 <= i < |b| => b[i] as int as char)
  }

  /** Decoding the Latin-1 bytes of a string gives the string back. */
  lemma Latin1RoundTrip(s: string)
    requires IsLatin1(s)
    ensures DecodeLatin1(EncodeLatin1(s).value) == s
  {
    var d := DecodeLatin1(EncodeLatin1(s).value);
    assert |d| == |s|;
    forall i | 0 <= i < |s| ensures d[i] == s[i] {
      assert d[i] as int == s[i] as int;
    }
  }

  /** Every value of d can be encoded. */
  predicate AllLatin1(d: Address)
  {
    forall f :: f in d ==> IsLatin1(d[f])
  }

  /**
   * `latin1ify(d)`: the same keys (their ASCII names encode to themselves) with
   * every value encoded as Latin-1, or UnicodeEncodeError when one cannot be.
   */
  function Latin1ify(d: Address): Result<map<Field, seq<Byte>>>
  {
    if !AllLatin1(d) then Err(UnicodeEncodeError)
    else Ok(map f | f in d :: EncodeLatin1(d[f]).value)
  }

  /** The dict of Latin-1 bytes read back as text. */
  function Decoded(e: map<Field, seq<Byte>>): Address
  {
    map f | f in e :: DecodeLatin1(e[f])
  }

  /**
   * When every cell of the row is Latin-1 text, latin1ify succeeds and the row of
   * the decoded dict is the row of the original.
   */
  lemma Latin1RowUnchanged(d: Address)
    requires forall i :: 0 <= i < |Fieldnames| ==> IsLatin1(RowOf(d)[i])
    ensures Latin1ify(d).Ok? && Decoded(Latin1ify(d).value) == d
  {
    forall f | f in d ensures IsLatin1(d[f]) {
      FieldnamesListEveryField(f);
      var i :| 0 <= i < |Fieldnames| && Fieldnames[i] == f;
      assert RowOf(d)[i] == d[f];
    }
    Latin1ifyPreservesEntries(d);
  }

  /**
   * latin1ify fails exactly when some value has a character outside Latin-1;
   * otherwise it keeps every key and encodes each value on its own, so decoding
   * the result gives the dict back.
   */
  lemma Latin1ifyPreservesEntries(d: Address)
    ensures Latin1ify(d).Err? <==> exists f :: f in d && exists i :: 0 <= i < |d[f]| && d[f][i] as int >= 256
    ensures Latin1ify(d).Ok? ==>
              Latin1ify(d).value.Keys == d.Keys &&
              forall f :: f in d ==> DecodeLatin1(Latin1ify(d).value[f]) == d[f]
  {
    if AllLatin1(d) {
      forall f | f in d ensures DecodeLatin1(Latin1ify(d).value[f]) == d[f] {
        Latin1RoundTrip(d[f]);
      }
    }
  }
}
