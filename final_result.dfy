/** The `FinalResult` class: it reads a partner's "final result" CSV file,
    checks its header and maps every 16-column data row to a payment record
    carrying the header's currency, with sentinel strings in place of
    missing or invalid fields. The class holds only constants, so it is a
    module here; the file system and the CSV reader are inputs. */
module FinalResult {
  import opened PhpString

  type Row = seq<string>

  const ExpectedColumnCount := 16
  const CurrencyColumn := 0
  const FailureCodeColumn := 1
  const FailureMessageColumn := 2
  const BankBranchCodeColumn := 2
  const BankCodeColumn := 3
  const BankAccountNumberColumn := 6
  const BankAccountNameColumn := 7
  const AmountColumn := 8
  const EndToEndId1Column := 10
  const EndToEndId2Column := 11

  const InvalidBankAccountNumber := "Invalid bank account number"
  const BankBranchCodeMissing := "Bank branch code missing"
  const InvalidBankCode := "Invalid bank code"
  const EndToEndIdMissing := "End to end id missing"

  datatype Amount = Amount(currency: string, subunits: int)

  /** One element of the `records` list. */
  datatype Record = Record(
    amount: Amount,
    bankAccountName: string,
    bankAccountNumber: string,
    bankBranchCode: string,
    bankCode: string,
    endToEndId: string)

  /** What `results` returns; the `filename` entry is not modelled. */
  datatype Batch = Batch(
    document: string,
    failureCode: string,
    failureMessage: string,
    records: seq<Record>)

  /** The three exceptions `results` throws. */
  datatype ParseError = FileNotFound(path: string) | UnableToOpen(path: string) | InvalidHeader
  {
    /** The exception text: the two file errors end with the path, and
        the header error has a fixed text. */
    function Message(): (m: string)
      ensures !InvalidHeader? ==> |m| > |path| && m[|m| - |path|..] == path
      ensures InvalidHeader? ==> m == "Invalid CSV header"
    {
      match this
      case FileNotFound(path) => "File not found: " + path
      case UnableToOpen(path) => "Unable to open file: " + path
      case InvalidHeader => "Invalid CSV header"
    }
  }

  /** The three messages differ in their first character, so the error
      kind can be read back from the text whatever the paths are. */
  lemma {:induction false} MessagesDistinct(p: string, q: string)
    ensures FileNotFound(p).Message() != UnableToOpen(q).Message()
    ensures FileNotFound(p).Message() != InvalidHeader.Message()
    ensures UnableToOpen(q).Message() != InvalidHeader.Message()
  {
    assert FileNotFound(p).Message()[0] == 'F';
    assert UnableToOpen(q).Message()[0] == 'U';
    assert InvalidHeader.Message()[0] == 'I';
  }

  datatype Outcome = Ok(batch: Batch) | Fail(error: ParseError)

  /** What the file system offers at the path: no file, a file that cannot
      be opened, or a readable file, given as the rows `fgetcsv` yields
      one after another (the header first). */
  datatype FileState = Missing | Unopenable | Readable(rows: seq<Row>)

  /** `validateBankAccountNumber`: the `ctype_digit` test and nothing
      more; in particular no length bound. A valid number is never the
      sentinel that replaces an invalid one. */
  predicate ValidateBankAccountNumber(s: string): (ok: bool)
    ensures ok <==> IsAllDigits(s)
    ensures ok ==> s != InvalidBankAccountNumber
  {
    assert InvalidBankAccountNumber[0] == 'I';
    IsAllDigits(s)
  }

  /** `validateBankCode`: the same `ctype_digit` test. */
  predicate ValidateBankCode(s: string): (ok: bool)
    ensures ok <==> IsAllDigits(s)
    ensures ok ==> s != InvalidBankCode
  {
    assert InvalidBankCode[0] == 'I';
    IsAllDigits(s)
  }

  /** The header guard: `fgetcsv` yielded a first row, and it has at least
      three fields, so the currency, failure code and failure message
      columns can all be read. */
  predicate HeaderValid(rows: seq<Row>): (ok: bool)
    ensures ok ==> |rows| > 0 && |rows[0]| > CurrencyColumn && |rows[0]| > FailureCodeColumn && |rows[0]| > FailureMessageColumn
    ensures !ok <==> rows == [] || |rows[0]| < 3
  {
    |rows| > 0 && |rows[0]| >= 3
  }

  /** The `bank_account_number` field: the column when it passes the
      validator, else the sentinel. The result passes the validator
      exactly when the column does, so a caller can tell the two apart. */
  function BankAccountNumberField(s: string): (r: string)
    ensures ValidateBankAccountNumber(s) ==> r == s
    ensures !ValidateBankAccountNumber(s) ==> r == InvalidBankAccountNumber
    ensures ValidateBankAccountNumber(r) <==> ValidateBankAccountNumber(s)
    ensures r != ""
  {
    if ValidateBankAccountNumber(s) then s
    else assert InvalidBankAccountNumber[0] == 'I'; InvalidBankAccountNumber
  }

  /** The `bank_code` field, with the same guarantees as the account number. */
  function BankCodeField(s: string): (r: string)
    ensures ValidateBankCode(s) ==> r == s
    ensures !ValidateBankCode(s) ==> r == InvalidBankCode
    ensures ValidateBankCode(r) <==> ValidateBankCode(s)
    ensures r != ""
  {
    if ValidateBankCode(s) then s
    else assert InvalidBankCode[0] == 'I'; InvalidBankCode
  }

  /** The `bank_branch_code` field: a PHP-empty column ("" or "0") is
      missing; any other value is kept as it is. The result is never empty. */
  function BankBranchCodeField(s: string): (r: string)
    ensures PhpEmpty(s) ==> r == BankBranchCodeMissing
    ensures !PhpEmpty(s) ==> r == s
    ensures !PhpEmpty(r)
  {
    if PhpEmpty(s) then BankBranchCodeMissing else s
  }

  /** The `end_to_end_id` field: missing only when both halves are
      PHP-empty, otherwise the two halves joined with no separator, whose
      prefix and suffix give the halves back. The result is never empty. */
  function EndToEndIdField(first: string, second: string): (r: string)
    ensures PhpEmpty(first) && PhpEmpty(second) ==> r == EndToEndIdMissing
    ensures !(PhpEmpty(first) && PhpEmpty(second)) ==>
      |r| == |first| + |second| && r[..|first|] == first && r[|first|..] == second
    ensures !PhpEmpty(r)
  {
    if PhpEmpty(first) && PhpEmpty(second) then EndToEndIdMissing else first + second
  }

  /** The `bank_account_name` field: `strtolower` followed by replacing
      every space with an underscore. Length is kept, no space and no ASCII
      capital survives, and every other character stays where it was. */
  function AccountNameField(s: string): (r: string)
    ensures |r| == |s|
    ensures ' ' !in r
    ensures forall i :: 0 <= i < |r| ==> !IsUpper(r[i])
    ensures forall i :: 0 <= i < |s| && s[i] == ' ' ==> r[i] == '_'
    ensures forall i :: 0 <= i < |s| && IsUpper(s[i]) ==> r[i] as int == s[i] as int + 32
    ensures forall i :: 0 <= i < |s| && s[i] != ' ' && !IsUpper(s[i]) ==> r[i] == s[i]
  {
    ReplaceChar(ToLower(s), ' ', '_')
  }

  /** `subunits`: a PHP-empty amount gives 0 whatever the conversion;
      any other amount goes through `convert`, which stands for PHP's
      `(int)((float)$amount * 100)`. */
  function Subunits(amount: string, convert: string -> int): (n: int)
    ensures PhpEmpty(amount) ==> n == 0
  {
    if PhpEmpty(amount) then 0 else convert(amount)
  }

  /** Normalising a name that is already normalised changes nothing. */
  lemma AccountNameIdempotent(s: string)
    ensures AccountNameField(AccountNameField(s)) == AccountNameField(s)
  {
  }

  /** The documented name case: capitals lowered, the space replaced. */
  lemma AccountNameExample()
    ensures AccountNameField("John Doe") == "john_doe"
  {
    var lower := ToLower("John Doe");
    assert lower[0] == LowerChar('J') == 'j';
    assert lower[5] == LowerChar('D') == 'd';
    assert lower == "john doe";
    assert ReplaceChar("john doe", ' ', '_') == "john_doe";
  }

  /** A tab is not a space: it stays where it is. */
  lemma AccountNameTabExample()
    ensures AccountNameField("A\tB") == "a\tb"
  {
    var lower := ToLower("A\tB");
    assert lower[0] == LowerChar('A') == 'a';
    assert lower[2] == LowerChar('B') == 'b';
    assert lower == "a\tb";
    assert ReplaceChar("a\tb", ' ', '_') == "a\tb";
  }

  /** The documented end-to-end id and branch code cases, including PHP's
      treatment of "0" as empty. */
  lemma MissingFieldExamples()
    ensures EndToEndIdField("", "") == EndToEndIdMissing
    ensures EndToEndIdField("A1", "") == "A1"
    ensures EndToEndIdField("", "B2") == "B2"
    ensures EndToEndIdField("A1", "B2") == "A1B2"
    ensures EndToEndIdField("0", "0") == EndToEndIdMissing
    ensures EndToEndIdField("0", "7") == "07"
    ensures BankBranchCodeField("0") == BankBranchCodeMissing
  {
  }

  /** The record built from one 16-column row. Every field is present,
      the four identifier fields are never empty, and a PHP-empty amount
      gives 0 subunits; `MapRowColumns` says which column feeds which
      field. */
  function MapRow(currency: string, row: Row, convert: string -> int): (r: Record)
    requires |row| == ExpectedColumnCount
    ensures r.amount.currency == currency
    ensures PhpEmpty(row[AmountColumn]) ==> r.amount.subunits == 0
    ensures r.bankAccountNumber != "" && r.bankCode != ""
    ensures !PhpEmpty(r.bankBranchCode) && !PhpEmpty(r.endToEndId)
    ensures |r.bankAccountName| == |row[BankAccountNameColumn]|
  {
    Record(
      Amount(currency, Subunits(row[AmountColumn], convert)),
      AccountNameField(row[BankAccountNameColumn]),
      BankAccountNumberField(row[BankAccountNumberColumn]),
      BankBranchCodeField(row[BankBranchCodeColumn]),
      BankCodeField(row[BankCodeColumn]),
      EndToEndIdField(row[EndToEndId1Column], row[EndToEndId2Column]))
  }

  /** Which column feeds which field of a record, and what the record
      then holds in terms of the columns themselves: a valid account number
      (column 6) or bank code (column 3) is kept and an invalid one becomes
      its sentinel, a PHP-empty branch code (column 2) is missing, the
      end-to-end id joins columns 10 and 11 unless both are PHP-empty, the
      name is column 7 normalised, and the subunits come from column 8. */
  lemma MapRowColumns(currency: string, row: Row, convert: string -> int)
    requires |row| == ExpectedColumnCount
    ensures MapRow(currency, row, convert).amount == Amount(currency, Subunits(row[AmountColumn], convert))
    ensures MapRow(currency, row, convert).bankAccountName == AccountNameField(row[BankAccountNameColumn])
    ensures MapRow(currency, row, convert).bankAccountNumber ==
      (if ValidateBankAccountNumber(row[BankAccountNumberColumn]) then row[BankAccountNumberColumn] else InvalidBankAccountNumber)
    ensures MapRow(currency, row, convert).bankBranchCode ==
      (if PhpEmpty(row[BankBranchCodeColumn]) then BankBranchCodeMissing else row[BankBranchCodeColumn])
    ensures MapRow(currency, row, convert).bankCode ==
      (if ValidateBankCode(row[BankCodeColumn]) then row[BankCodeColumn] else InvalidBankCode)
    ensures MapRow(currency, row, convert).endToEndId ==
      (if PhpEmpty(row[EndToEndId1Column]) && PhpEmpty(row[EndToEndId2Column]) then EndToEndIdMissing
       else row[EndToEndId1Column] + row[EndToEndId2Column])
  {
  }

  /** The data rows that are processed: those with exactly 16 fields, in
      their original order. */
  function KeptRows(rows: seq<Row>): (kept: seq<Row>)
    ensures |kept| <= |rows|
    ensures forall row :: row in kept <==> row in rows && |row| == ExpectedColumnCount
  {
    if rows == [] then []
    else (if |rows[0]| == ExpectedColumnCount then [rows[0]] else []) + KeptRows(rows[1..])
  }

  /** What one data row adds to the records: its record when it has
      exactly 16 fields, nothing otherwise. */
  function RowRecords(currency: string, row: Row, convert: string -> int): (added: seq<Record>)
    ensures |added| <= 1
    ensures |row| == ExpectedColumnCount <==> |added| == 1
  {
    if |row| == ExpectedColumnCount then [MapRow(currency, row, convert)] else []
  }

  /** The records produced from the data rows, one row at a time. */
  function RecordsOf(currency: string, rows: seq<Row>, convert: string -> int): (records: seq<Record>)
    ensures |records| <= |rows|
    ensures forall i :: 0 <= i < |records| ==> records[i].amount.currency == currency
  {
    if rows == [] then []
    else RowRecords(currency, rows[0], convert) + RecordsOf(currency, rows[1..], convert)
  }

  /** Keeping rows distributes over concatenation: order is preserved. */
  lemma {:induction false} KeptRowsAppend(a: seq<Row>, b: seq<Row>)
    ensures KeptRows(a + b) == KeptRows(a) + KeptRows(b)
  {
    if a == [] {
      assert a + b == b;
    } else {
      assert (a + b)[1..] == a[1..] + b;
      KeptRowsAppend(a[1..], b);
    }
  }

  /** Producing records distributes over concatenation of the rows. */
  lemma {:induction false} RecordsOfAppend(currency: string, a: seq<Row>, b: seq<Row>, convert: string -> int)
    ensures RecordsOf(currency, a + b, convert) == RecordsOf(currency, a, convert) + RecordsOf(currency, b, convert)
  {
    if a == [] {
      assert a + b == b;
    } else {
      assert (a + b)[1..] == a[1..] + b;
      RecordsOfAppend(currency, a[1..], b, convert);
    }
  }

  /** One more row adds its record at the end, or nothing if it does not
      have 16 fields: the step of the row loop. */
  lemma RecordsOfSnoc(currency: string, rows: seq<Row>, row: Row, convert: string -> int)
    ensures RecordsOf(currency, rows + [row], convert) ==
      RecordsOf(currency, rows, convert) + RowRecords(currency, row, convert)
  {
    assert [row][1..] == [];
    RecordsOfAppend(currency, rows, [row], convert);
  }

  /** A row without exactly 16 fields contributes nothing wherever it
      stands. */
  lemma SkippedRow(currency: string, before: seq<Row>, row: Row, after: seq<Row>, convert: string -> int)
    requires |row| != ExpectedColumnCount
    ensures RecordsOf(currency, before + [row] + after, convert) == RecordsOf(currency, before + after, convert)
  {
    RecordsOfAppend(currency, before + [row], after, convert);
    RecordsOfAppend(currency, before, [row], convert);
    RecordsOfAppend(currency, before, after, convert);
  }

  /** The records are exactly the kept rows, mapped one for one in order:
      as many records as 16-column rows, the i-th from the i-th such row. */
  lemma {:induction false} RecordsOfKeptRows(currency: string, rows: seq<Row>, convert: string -> int)
    ensures |RecordsOf(currency, rows, convert)| == |KeptRows(rows)|
    ensures forall i :: 0 <= i < |KeptRows(rows)| ==>
      |KeptRows(rows)[i]| == ExpectedColumnCount &&
      RecordsOf(currency, rows, convert)[i] == MapRow(currency, KeptRows(rows)[i], convert)
  {
    if rows != [] {
      var rest, restKept := RecordsOf(currency, rows[1..], convert), KeptRows(rows[1..]);
      RecordsOfKeptRows(currency, rows[1..], convert);
      if |rows[0]| == ExpectedColumnCount {
        var records, kept := RecordsOf(currency, rows, convert), KeptRows(rows);
        assert records == [MapRow(currency, rows[0], convert)] + rest;
        assert kept == [rows[0]] + restKept;
        forall i | 0 <= i < |kept|
          ensures |kept[i]| == ExpectedColumnCount && records[i] == MapRow(currency, kept[i], convert)
        {
          if i > 0 {
            assert kept[i] == restKept[i - 1] && records[i] == rest[i - 1];
          }
        }
      } else {
        assert RecordsOf(currency, rows, convert) == rest;
        assert KeptRows(rows) == restKept;
      }
    }
  }

  /** `results`: the header guard, then one pass over the data rows that
      appends a record for every 16-column row, then the batch built from
      the header's failure code and message. */
  method Results(filePath: string, file: FileState, convert: string -> int) returns (r: Outcome)
    ensures file.Missing? ==> r == Fail(FileNotFound(filePath))
    ensures file.Unopenable? ==> r == Fail(UnableToOpen(filePath))
    ensures file.Readable? && !HeaderValid(file.rows) ==> r == Fail(InvalidHeader)
    ensures file.Readable? && HeaderValid(file.rows) ==>
      r == Ok(Batch(filePath, file.rows[0][FailureCodeColumn], file.rows[0][FailureMessageColumn],
                    RecordsOf(file.rows[0][CurrencyColumn], file.rows[1..], convert)))
  {
    if file.Missing? {
      return Fail(FileNotFound(filePath));
    }
    if file.Unopenable? {
      return Fail(UnableToOpen(filePath));
    }
    var rows := file.rows;
    if |rows| == 0 || |rows[0]| < 3 {
      return Fail(InvalidHeader);
    }
    var header := rows[0];
    var records := CollectRecords(header[CurrencyColumn], rows[1..], convert);
    r := Ok(Batch(filePath, header[FailureCodeColumn], header[FailureMessageColumn], records));
  }

  /** The `while` loop of `results`: it reads the data rows one by one and
      appends a record for each 16-column row to the list built so far. */
  method CollectRecords(currency: string, data: seq<Row>, convert: string -> int) returns (records: seq<Record>)
    ensures records == RecordsOf(currency, data, convert)
  {
    records := [];
    var i := 0;
    while i < |data|
      invariant 0 <= i <= |data|
      invariant records == RecordsOf(currency, data[..i], convert)
    {
      var row := data[i];
      if |row| == ExpectedColumnCount {
        records := records + [MapRow(currency, row, convert)];
      }
      RecordsOfSnoc(currency, data[..i], row, convert);
      assert data[..i + 1] == data[..i] + [row];
      i := i + 1;
    }
    assert data[..i] == data;
  }
}
