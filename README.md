# NLAddressLocator in Dafny

NLAddressLocator is a small console script that looks up Dutch addresses with the
PDOK Locatieserver. It exists in a Python 3 version (`python/NLAddressLocator.py`)
and a Python 2 version (`python2x/NLAddressLocator.py`). One run of the script goes
through four steps:

1. It sends the search text to the `suggest` service.
2. It picks one suggestion:
   - no hit means nothing more happens;
   - a single hit is taken as it is;
   - several hits are listed with numbers 1..j, and the user types one of those numbers.
3. It looks up the chosen id. It then fills an `address` dict from every returned
   document, taking the RD X and Y coordinates out of `centroide_rd` with
   `re.findall`.
4. It appends the address, with a description the user types, to `addresses.csv`.
   The header row is written only when the file has no lines yet.

This project models the deterministic core of both versions and proves what it does:

- `CoordinateTokens` models the coordinate extractor.
  - Python's backtracking regex engine is modelled for `\d+[.]?\d+` (Python 3) and
    `\d+.\d+` (Python 2).
  - `findall` is modelled as a left-to-right scan.
  - Both are proved equal to an independent specification: the leftmost start, then
    the longest token there, then the same again from its end. This specification
    has exactly one solution.
- `CentroidFormats` proves what the two patterns extract from the centroid strings
  the service returns, and from the edge cases:
  - integer coordinates;
  - a lone digit;
  - a trailing dot;
  - `123 456`.
- `Selection` models the disambiguation step.
  - It covers the numbered listing loop, the `options` list and the accept/quit rule.
  - It models how each version reads the answer: Python 3 applies `int()` to text;
    Python 2's `input()` evaluates what was typed.
- `AddressRecord` models the `address` dict and what is written from it.
  - It covers the loop over the lookup documents, where the last document wins and
    the postal code is set only when present.
  - It covers the row `csv.DictWriter` writes in `fieldnames` order, and reading that
    row back.
  - It covers Python 2's `latin1ify`.
- `AddressFile` models the CSV file as a class holding its rows.
  - `file_len` counts the rows in a loop.
  - Appending writes the header only to an empty file.
- `Locator` models a whole run of each version, with the effect of the run on the file.

Some inputs are parameters of the model rather than modelled behaviour:

- the decoded suggestion response;
- the user's answer;
- the lookup service, as a function from id to documents;
- the description.

## Model

| member | source | states |
|---|---|---|
| CoordinateTokens.DigitRun | python/NLAddressLocator.py:82 | the length of the maximal run of digits at a position: every character in it is a digit and the next one is not |
| CoordinateTokens.Backtrack | python/NLAddressLocator.py:82 | the engine's match at a start position, after giving back digits one at a time, is at least two characters long and lies within the string |
| CoordinateTokens.MatchAtClosedForm | python/NLAddressLocator.py:82 | the backtracking match is the digit run, the middle character and the next run when they exist; otherwise the run alone when it is long enough (2 digits for Python 3, 3 for Python 2); otherwise no match |
| CoordinateTokens.MatchAtIsToken | python/NLAddressLocator.py:82 | whatever the engine matches is a string of the pattern's language |
| CoordinateTokens.TokenWithinMatch | python2x/NLAddressLocator.py:78 | every token that starts at a position ends no later than the engine's match there |
| CoordinateTokens.MatchAtIsLongestToken | python/NLAddressLocator.py:82 | the engine's match is the longest token at that position, and when the engine fails, no token starts there |
| CoordinateTokens.Scan | python/NLAddressLocator.py:82 | the spans findall reports lie within the string, after the scan's start |
| CoordinateTokens.ScanIsFindAll | python/NLAddressLocator.py:82 | findall meets its specification: leftmost start, longest token there, then continue from its end |
| CoordinateTokens.FindAllIsUnique | python/NLAddressLocator.py:82 | any sequence of spans that meets the specification of findall is the one the scan returns |
| CoordinateTokens.ScanOrderedTokens | python/NLAddressLocator.py:82 | the matches are tokens of at least two characters that do not overlap and come left to right |
| CoordinateTokens.ScanSkipsNonDigits | python/NLAddressLocator.py:82 | findall passes over characters that are not digits |
| CoordinateTokens.ScanTakesSplit | python2x/NLAddressLocator.py:78 | a digit run, a middle character the pattern accepts and a digit run, with no digit after them, are reported as one token |
| CoordinateTokens.ScanTakesRun | python2x/NLAddressLocator.py:78 | a maximal digit run that nothing continues is reported when it has at least 2 (Python 3) or 3 (Python 2) digits, and skipped otherwise |
| CoordinateTokens.TokenShape | python2x/NLAddressLocator.py:78 | a token starts and ends with a digit and is at least 2 (Python 3) or 3 (Python 2) characters long; it has at most one non-digit, which is a dot in Python 3 and is never a newline in Python 2 |
| CoordinateTokens.CoordinatesAreFirstTwoMatches | python/NLAddressLocator.py:82-84 | X and Y are the first two matches of the specification; with fewer than two matches the extraction raises IndexError |
| CentroidFormats.DecimalPair | python/NLAddressLocator.py:82-84 | for both patterns, two decimal numbers separated by a non-digit between text without digits are found as exactly those two numbers, in order |
| CentroidFormats.IntegerPairPy3 | python/NLAddressLocator.py:82 | in Python 3, two integers of at least two digits, separated by a character that is neither a digit nor a dot, are found as two tokens |
| CentroidFormats.IntegerPairPy2 | python2x/NLAddressLocator.py:78 | in Python 2, two integers separated by a character that is not a newline come out as ONE token that includes the separator |
| CentroidFormats.DigitsAlone | python2x/NLAddressLocator.py:78 | a string of digits alone is one token when it has at least 2 (Python 3) or 3 (Python 2) digits, and yields nothing otherwise |
| CentroidFormats.TrailingDot | python/NLAddressLocator.py:82 | a trailing dot with no digit after it is not part of the token |
| CentroidFormats.CentroidWithDecimals | python/NLAddressLocator.py:82-84 | for `POINT(123456.78 654321.12)`, both versions read X `123456.78` and Y `654321.12` |
| CentroidFormats.CentroidWithIntegersPy3 | python/NLAddressLocator.py:82-84 | Python 3 reads X `123456` and Y `654321` from `POINT(123456 654321)` |
| CentroidFormats.SpaceSeparatesPy3 | python/NLAddressLocator.py:82 | Python 3 finds `123` and `456` in `123 456` |
| CentroidFormats.CentroidWithIntegersPy2 | python2x/NLAddressLocator.py:78-80 | Python 2 finds the single token `123456 654321` in `POINT(123456 654321)`, so reading Y raises IndexError |
| CentroidFormats.SpaceSwallowedPy2 | python2x/NLAddressLocator.py:78 | Python 2 reads `123456 654321` as one token |
| CentroidFormats.ShortInputs | python2x/NLAddressLocator.py:78 | Python 3 finds nothing in `7`, finds `12` in `12` and in `12.`; Python 2 finds nothing in `12` and finds `123` in `123` |
| Selection.Range | python/NLAddressLocator.py:55 | `range(lo, hi)` has hi - lo elements and the i-th is lo + i |
| Selection.InRange | python/NLAddressLocator.py:57 | a number is in `range(lo, hi)` exactly when lo <= x < hi |
| Selection.ListDocs | python/NLAddressLocator.py:51-55 | the listing loop numbers the documents 1..j in order, with j the number of documents, and `options` is range(1, j + 1) |
| Selection.DisambiguatePy3 | python/NLAddressLocator.py:42-64 | the Python 3 selection step gives the outcome of the selection rule, and lists the documents when there are several hits |
| Selection.DisambiguatePy2 | python2x/NLAddressLocator.py:41-63 | the Python 2 selection step gives the outcome of its selection rule, and lists the documents when there are several hits |
| Selection.NoResultsIffNothingFound | python/NLAddressLocator.py:42-43 | in both versions, nothing is selected exactly when numFound is 0 |
| Selection.SingleHitIgnoresChoice | python/NLAddressLocator.py:45-48 | with a single hit, docs[0].id is taken whatever the answer |
| Selection.ListedNumberSelectsDoc | python2x/NLAddressLocator.py:55-59 | with several hits, typing the number k + 1 printed next to document k selects that document's id, in both versions |
| Selection.ChosenOnlyFromListedNumbers | python/NLAddressLocator.py:56-64 | with several hits, an id is selected iff the answer n satisfies 1 <= n <= j, and it is docs[n-1].id; any other integer (0 included) quits; text that is not an integer raises ValueError |
| Selection.Py2AgreesOnIntegers | python2x/NLAddressLocator.py:55-63 | Python 2 selects as Python 3 does when the answer is an integer; a value that is not an integer is never selected |
| AddressRecord.ApplyDoc | python/NLAddressLocator.py:74-84 | one pass of the loop body overwrites the document's fields, overwrites the postal code only when the document has one, and raises IndexError when the centroid has fewer than two tokens |
| AddressRecord.Populate | python/NLAddressLocator.py:73-84 | the loop yields the dict its specification describes: the last document's fields and coordinates, plus the postcode of the last document that has one; IndexError when some centroid is short |
| AddressRecord.AssembledSnoc | python/NLAddressLocator.py:73-84 | one more document overwrites every field it carries and keeps the earlier postal code when it has none (the step the loop invariant rests on) |
| AddressRecord.PostalCodeOnlyWhenPresent | python2x/NLAddressLocator.py:72-73 | a postal code is set exactly when some document has one, and it comes from a document that no later document with a postcode follows |
| AddressRecord.AssembledKeys | python/NLAddressLocator.py:73-84 | the loop never sets Description; with at least one document it sets every other column, and sets Postal_code exactly when some document has a postcode |
| AddressRecord.AssembledFailsIff | python/NLAddressLocator.py:82-84 | the loop raises IndexError exactly when some document's centroid has fewer than two tokens |
| AddressRecord.AssembledValues | python2x/NLAddressLocator.py:69-80 | field by field: the last document wins, X and Y are its coordinates, the postal code is the last one present or blank, and with no document the dict is empty |
| AddressRecord.FieldnamesListEveryField | python/NLAddressLocator.py:29 | every key the dict can hold appears exactly once in `fieldnames`, so `writerow` never meets a key it cannot place |
| AddressRecord.RowOf | python/NLAddressLocator.py:96 | the written row has one cell per column, in `fieldnames` order: the dict's value, or a blank where the key is missing |
| AddressRecord.HeaderRow | python/NLAddressLocator.py:95 | the header row holds the column names in `fieldnames` order |
| AddressRecord.WithDescription | python/NLAddressLocator.py:88 | the description adds the Description key to the dict's keys |
| AddressRecord.RowRoundTrip | python/NLAddressLocator.py:93-96 | reading a written row back by `fieldnames` gives every column its value from the dict, or a blank |
| AddressRecord.RecordReadsBack | python/NLAddressLocator.py:73-96 | the record read back holds the description, the last document's fields and coordinates, and the last postcode present or a blank; with no document, every column but Description is blank |
| AddressRecord.AssembledAgreeOnCoordinates | python2x/NLAddressLocator.py:69-80 | the loop depends on the pattern only through the coordinates the pattern yields |
| AddressRecord.EncodeLatin1 | python2x/NLAddressLocator.py:18 | `encode('latin-1')` succeeds exactly when every code point is below 256, gives one byte per character with that value, and raises UnicodeEncodeError otherwise |
| AddressRecord.DecodeLatin1 | python2x/NLAddressLocator.py:18 | each Latin-1 byte is decoded to the character with that code point |
| AddressRecord.Latin1RoundTrip | python2x/NLAddressLocator.py:18 | decoding the Latin-1 encoding of a string gives the string back |
| AddressRecord.Latin1ifyPreservesEntries | python2x/NLAddressLocator.py:17-18 | `latin1ify` fails exactly when some value has a character outside Latin-1; otherwise it keeps the same set of keys and encodes each value on its own, and each value decodes back to the original |
| AddressRecord.Latin1RowUnchanged | python2x/NLAddressLocator.py:92 | when every cell is Latin-1 text, `latin1ify` succeeds and the row written from its result is the row of the original dict |
| AddressFile.AppendAllToNonEmpty | python/NLAddressLocator.py:94-96 | runs that append to a file that already has lines add only their rows, never a header |
| AddressFile.HeaderOnce | python/NLAddressLocator.py:94-96 | however many runs append to a new file, it holds one header, first, followed by the records in the order they were written |
| AddressFile.CsvFile.constructor | python/NLAddressLocator.py:92 | the file starts with the rows it already holds |
| AddressFile.CsvFile.FileLen | python/NLAddressLocator.py:17-22 | `file_len` counts one line per row, and is 0 exactly when the file is empty |
| AddressFile.CsvFile.WriteHeader | python/NLAddressLocator.py:95 | `writeheader` appends the header row and changes nothing else |
| AddressFile.CsvFile.WriteRow | python/NLAddressLocator.py:96 | `writerow` appends the row and changes nothing else |
| AddressFile.CsvFile.AppendRecord | python/NLAddressLocator.py:94-96 | the header is appended iff `file_len` is 0, then exactly one row |
| Locator.RunPy3 | python/NLAddressLocator.py:42-96 | a Python 3 run ends as its specification says and leaves the file as that outcome requires: the header (only if the file was empty) and one row when a record is written, and no change otherwise |
| Locator.RunPy2 | python2x/NLAddressLocator.py:41-92 | a Python 2 run likewise; when `latin1ify` fails, the header step has already run and no row follows |
| Locator.RowOnlyForChosenAddress | python/NLAddressLocator.py:42-84 | a row is written exactly when an id was selected and every looked-up centroid has two tokens; numFound 0 gives nothing found; Python 3 never fails while writing |
| Locator.RowOnlyForChosenAddressPy2 | python2x/NLAddressLocator.py:41-92 | in Python 2 the file is reached exactly when an id was selected and every centroid has two tokens; the only failure there is UnicodeEncodeError; numFound 0 gives nothing found |
| Locator.WrittenRowContents | python/NLAddressLocator.py:73-96 | the row a run writes, read back by column, holds the description, the last document's fields and coordinates, and the last postcode present or a blank |
| Locator.WrittenRowContentsPy2 | python2x/NLAddressLocator.py:69-92 | the row Python 2 writes, through `latin1ify` and back, read by column holds the description, the last document's fields and `\d+.\d+` coordinates, and the last postcode present or a blank |
| Locator.EncodingFailureLeavesHeader | python2x/NLAddressLocator.py:87-92 | Python 2 fails while writing exactly when an id was chosen, every centroid has two tokens and some value of the dict, the description included, is not Latin-1 text; a new file is then left holding only the header and any other file is unchanged |
| Locator.VersionsAgree | python2x/NLAddressLocator.py:55-92 | the two versions write the same row when three things hold: the answer is an integer, both patterns give the same coordinates, and every cell is Latin-1 text |
| Locator.ChooseSecondOfThree | python/NLAddressLocator.py:50-96 | the worked example: three hits, answer 2, one document with `POINT(123456.78 654321.12)`, description `office`, new file; the file ends with the header and the row `office`, the document's fields, its postcode (a blank when it has none), `123456.78`, `654321.12` |
| Locator.SingleHitAppends | python/NLAddressLocator.py:45-48 | with a single hit, whatever is typed, a new file gets the header and that address's row |
| Locator.IntegerCentroidOnlyPy3Writes | python2x/NLAddressLocator.py:78-80 | for a centroid without decimals, Python 2 raises IndexError and leaves the file unchanged, while Python 3 writes the row |

## Left out

- Network access is not modelled: `urlopen`/`urllib.urlopen`, the URLs, `urlencode` and `json.loads`.
  - The decoded suggestion response is a parameter.
  - The lookup service is a parameter, as a function from id to documents.
- A JSON document that lacks a key the script reads is not modelled. The script would raise KeyError; the model assumes every key is present, except `postcode`.
- Console I/O is left out: `print`, `input`/`raw_input` and `os.path.abspath`.
  - The answer and the description are parameters.
  - `ListDocs` returns the numbered lines instead of printing them.
  - `quit()` is the outcome `Quit`.
- Selection.SelectPy3: Python 3's `int()` is a parameter: the answer is either the integer `int()` returns or a failure (ValueError). The accepted syntax (signs, spaces, underscores) is not modelled.
- Selection.SelectPy2: Python 2's `input()` evaluates an expression, and that evaluation is not modelled. The value is given as an integer, or as another value together with what `int()` makes of it. Errors raised while evaluating the expression itself are not modelled.
- CoordinateTokens.IsToken: `\d` is taken as the ASCII digits. In Python 3, `\d` on `str` also matches other Unicode decimal digits.
- AddressRecord.RowOf: quoting, the `;` delimiter, the `\n` line terminator and the byte encoding of the file are not modelled. A row is its sequence of cells.
- AddressFile.CsvFile.FileLen: counts one line per row. A quoted value that contains a newline takes several lines in the real file. That changes the count, but never whether it is 0, which is all the script tests.
- AddressRecord.Latin1ify: the keys are modelled as the enumeration `Field`. Their names are ASCII, so encoding leaves them as they are.
- AddressRecord.Latin1ify: Python 2's description comes from `raw_input` as a byte string. Calling `.encode('latin-1')` on it first decodes it as ASCII. A non-ASCII description therefore raises UnicodeDecodeError, which is not modelled: the description is treated as text like the other values.
- Locator.RunPy2: the row is written as text, decoded from the Latin-1 bytes `latin1ify` produces. `Latin1RowUnchanged` shows this is the same row as the original dict's.
- Buffering and process exit are not modelled. The file is taken to hold what was written before an exception, including a header written just before `latin1ify` raises.
- A suggestion response whose `numFound` disagrees with the length of `docs` is modelled as given: an empty list of documents with a single hit raises IndexError, and with several hits every integer answer quits. An answer that is not an integer raises ValueError in Python 3. In Python 2 it raises only when `int()` of it raises; otherwise it quits.
