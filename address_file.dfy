/**
 * `addresses.csv`, opened for appending: its rows, `file_len`, and step 4 of the
 * script, which writes the header only when the file has no lines yet and then
 * exactly one data row.
 */
module AddressFile {
  import opened AddressRecord

  /** The rows before the data row: the header is added only to an empty file. */
  function WithHeader(rows: seq<seq<string>>): seq<seq<string>>
  {
    if rows == [] then [HeaderRow()] else rows
  }

  /** The rows after one header-once append of `row`. */
  function Appended(rows: seq<seq<string>>, row: seq<string>): seq<seq<string>>
  {
    WithHeader(rows) + [row]
  }

  /** The rows after one run per record, each appending its record. */
  function AppendAll(rows: seq<seq<string>>, records: seq<seq<string>>): seq<seq<string>>
    decreases |records|
  {
    if records == [] then rows else AppendAll(Appended(rows, records[0]), records[1..])
  }

  /** Appending to a file that already has lines only ever adds the records. */
  lemma {:induction false} AppendAllToNonEmpty(rows: seq<seq<string>>, records: seq<seq<string>>)
    requires rows != []
    ensures AppendAll(rows, records) == rows + records
    decreases |records|
  {
    if records != [] {
      AppendAllToNonEmpty(rows + [records[0]], records[1..]);
      assert rows + [records[0]] + records[1..] == rows + records;
    }
  }

  /**
   * However many runs append to a new file, it holds one header, first, followed
   * by the records in the order they were written.
   */
  lemma HeaderOnce(records: seq<seq<string>>)
    requires records != []
    ensures AppendAll([], records) == [HeaderRow()] + records
  {
    assert Appended([], records[0]) == [HeaderRow(), records[0]];
    AppendAllToNonEmpty([HeaderRow(), records[0]], records[1..]);
    assert [HeaderRow(), records[0]] + records[1..] == [HeaderRow()] + records;
  }

  /** The file's content as rows of cells, one per line. */
  class CsvFile {
    var rows: seq<seq<string>>

    constructor (initial: seq<seq<string>>)
      ensures rows == initial
    {
      rows := initial;
    }

    /** `file_len(fname)`: counts the lines one by one. */
    method FileLen() returns (count: nat)
      ensures count == |rows|
      ensures count == 0 <==> rows == []
    {
      count := 0;
      for i := 0 to |rows|
        invariant count == i
      {
        count := count + 1;
      }
    }

    /** `writer.writeheader()`. */
    method WriteHeader()
      modifies this
      ensures rows == old(rows) + [HeaderRow()]
    {
      rows := rows + [HeaderRow()];
    }

    /** `writer.writerow(...)` of a row already in column order. */
    method WriteRow(row: seq<string>)
      modifies this
      ensures rows == old(rows) + [row]
    {
      rows := rows + [row];
    }

    /** Step 4: the header when `file_len` is 0, then the row. */
    method AppendRecord(row: seq<string>)
      modifies this
      ensures rows == Appended(old(rows), row)
    {
      var n := FileLen();
      if n == 0 {
        WriteHeader();
      }
      WriteRow(row);
    }
  }
}
