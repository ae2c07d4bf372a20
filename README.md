# FinalResult, modelled in Dafny

A model of `FinalResult::results` from a PHP payment-results importer.
`results` reads a partner's "final result" CSV file. The header row carries
the batch's currency, failure code and failure message. Every data row with
exactly 16 fields becomes a payment record. Invalid or missing identifiers
are replaced by fixed sentinel strings. Rows with any other field count are
dropped without notice.

Two modules:

- `PhpString` (`php_string.dfy`) gives the PHP string routines the code
  relies on: `ctype_digit` (`IsAllDigits`), `empty()` on a string
  (`PhpEmpty`, true for `""` and `"0"`), `strtolower` (`ToLower`, ASCII
  only) and `str_replace` with a one-character needle (`ReplaceChar`).
- `FinalResult` (`final_result.dfy`) gives the class. The class has no
  instance state, only constants, so it is a module with `const`s. The two
  validators are predicates. Each record field is a function with its own
  contract. `MapRow` builds one record. `RecordsOf` and `KeptRows` are the
  specification of the row loop. `CollectRecords` is the loop itself, and
  `Results` is the rest of `results`: the error paths, the header guard and
  the batch.

The file system is an input. `FileState` is `Missing`, `Unopenable` or
`Readable(rows)`. `rows` holds what `fgetcsv` yields, one row after another,
with the header first. An empty `rows` means the header is absent. The
amount conversion `(int)((float)$amount * 100)` is a parameter
`convert: string -> int`. The model fixes only what the code guarantees:
a PHP-empty amount gives 0 subunits.

The amount test at src/FinalResult.php:39 is `empty($a) || $a == "0"`.
Under strict equality the second test adds nothing, so the model uses
`PhpEmpty` alone. PHP's loose `==` also lets through other numeric strings
equal to zero, such as `"0.0"` or `"00"`. Their float value is 0, so their
subunits are 0 either way; in the model that is up to `convert`.

## Model

| member | source | states |
|---|---|---|
| `PhpString.IsAllDigits` | src/FinalResult.php:86 | `ctype_digit`, written as a left-to-right scan, holds exactly when the string is non-empty and every character is an ASCII digit |
| `PhpString.PhpEmpty` | src/FinalResult.php:43-44 | `empty()` on a string holds exactly for the strings of at most one character that are all zeros, i.e. "" and "0" |
| `PhpString.LowerChar` | src/FinalResult.php:56 | the per-byte mapping of `strtolower`: the result is never an ASCII capital; a capital moves down by 32; any other byte is unchanged |
| `PhpString.ToLower` | src/FinalResult.php:56 | `strtolower` keeps the length and maps each character through `LowerChar`: ASCII capitals move down by 32, all else is unchanged |
| `PhpString.ReplaceChar` | src/FinalResult.php:56 | `str_replace` with one-character needle and replacement keeps the length, swaps exactly the needle's occurrences, and leaves no needle behind |
| `PhpString.IsAllDigitsExamples` | src/FinalResult.php:84-98 | the digit test accepts "123456" and rejects "", "12A456" and "-123" |
| `FinalResult.ValidateBankAccountNumber` | src/FinalResult.php:84-87 | valid exactly when `ctype_digit` holds, with no length bound; a valid number is never the sentinel text |
| `FinalResult.ValidateBankCode` | src/FinalResult.php:95-98 | valid exactly when `ctype_digit` holds; a valid code is never the sentinel text |
| `FinalResult.HeaderValid` | src/FinalResult.php:31 | the header is rejected exactly when there is no first row or it has fewer than 3 fields; an accepted header has the currency, failure code and failure message columns |
| `FinalResult.ParseError.Message` | src/FinalResult.php:22-33 | "File not found: " and "Unable to open file: " messages end with the path; the header error reads "Invalid CSV header" |
| `FinalResult.MessagesDistinct` | src/FinalResult.php:22-33 | the three messages differ whatever the paths, so the error kind can be told from the text |
| `FinalResult.BankAccountNumberField` | src/FinalResult.php:40-42 | a column that passes `validateBankAccountNumber` is kept unchanged, any other column gives exactly "Invalid bank account number"; the field passes `validateBankAccountNumber` exactly when the column does; it is never empty |
| `FinalResult.BankCodeField` | src/FinalResult.php:47-49 | a column that passes `validateBankCode` is kept unchanged, any other column gives exactly "Invalid bank code"; the field passes `validateBankCode` exactly when the column does; it is never empty |
| `FinalResult.BankBranchCodeField` | src/FinalResult.php:43 | a PHP-empty column ("" or "0") gives "Bank branch code missing"; any other column is kept unchanged; the result is never PHP-empty |
| `FinalResult.EndToEndIdField` | src/FinalResult.php:44-46 | both halves PHP-empty gives "End to end id missing"; otherwise the result is the halves joined with no separator, and its prefix and suffix give the halves back; the result is never PHP-empty |
| `FinalResult.MissingFieldExamples` | src/FinalResult.php:43-46 | the documented end-to-end id cases; "0" with "0" counts as missing, "0" with "7" gives "07"; a branch code "0" counts as missing |
| `FinalResult.AccountNameField` | src/FinalResult.php:56 | the name keeps its length, has no space and no ASCII capital; spaces become "_", capitals become lower case, every other character stays |
| `FinalResult.AccountNameIdempotent` | src/FinalResult.php:56 | normalising a normalised name changes nothing |
| `FinalResult.AccountNameExample` | src/FinalResult.php:56 | "John Doe" becomes "john_doe" |
| `FinalResult.AccountNameTabExample` | src/FinalResult.php:56 | a tab is not a space and is left in place: "A\tB" becomes "a\tb" |
| `FinalResult.Subunits` | src/FinalResult.php:39 | an amount of "" or "0" gives 0 subunits, whatever the float conversion does |
| `FinalResult.MapRow` | src/FinalResult.php:39-61 | a 16-column row gives a record with the header's currency; a PHP-empty amount gives 0 subunits; account number and bank code are non-empty; branch code and end-to-end id are never PHP-empty; the name keeps column 7's length |
| `FinalResult.MapRowColumns` | src/FinalResult.php:39-61 | each record field in terms of its own column: the amount from column 8, the name is column 7 normalised, column 6 kept if all digits else "Invalid bank account number", column 2 kept unless PHP-empty else "Bank branch code missing", column 3 kept if all digits else "Invalid bank code", columns 10 and 11 joined unless both PHP-empty else "End to end id missing" |
| `FinalResult.RowRecords` | src/FinalResult.php:38-63 | one data row adds exactly one record when it has 16 fields and none otherwise |
| `FinalResult.KeptRows` | src/FinalResult.php:37-38 | a row is among the kept rows exactly when it is a data row with 16 fields, and there are no more kept rows than rows; order and multiplicity are stated by `KeptRowsAppend` |
| `FinalResult.RecordsOf` | src/FinalResult.php:37-64 | no more records than data rows, and every record's currency is the header's currency |
| `FinalResult.KeptRowsAppend` | src/FinalResult.php:37-38 | the row filter distributes over concatenation, so it keeps the rows' order |
| `FinalResult.RecordsOfAppend` | src/FinalResult.php:37-65 | record production distributes over concatenation: the records of later rows follow those of earlier rows |
| `FinalResult.RecordsOfSnoc` | src/FinalResult.php:37-63 | one more data row appends its own record, or nothing, at the end of the records so far |
| `FinalResult.SkippedRow` | src/FinalResult.php:38 | a row without exactly 16 fields contributes nothing, wherever it stands |
| `FinalResult.RecordsOfKeptRows` | src/FinalResult.php:37-63 | there are as many records as rows with 16 fields, and the i-th record is `MapRow` of the i-th such row |
| `FinalResult.CollectRecords` | src/FinalResult.php:36-65 | the row loop, appending to the record list in place of a local array, returns exactly the records `RecordsOf` specifies |
| `FinalResult.Results` | src/FinalResult.php:19-76 | a missing file, an unopenable file and a missing or short header fail with their own error and no batch; otherwise the batch holds the path, header fields 1 and 2 as failure code and message, and the records of the data rows under header field 0's currency |

## Left out

- File-system calls (`file_exists`, `fopen`, `fclose`): the file's state is an input, and closing the handle has no observable effect here.
- CSV tokenisation by `fgetcsv`: the rows come already split into fields.
- The `filename` entry of the result: it is `basename($filePath)`, a library path routine; the model keeps `document`, the full path.
- FinalResult.Subunits: does not model the float parse and the truncating `(int)` cast of a non-empty amount, because that is floating-point arithmetic; it is the `convert` parameter.
- `MIN_BANK_ACCOUNT_NUMBER_LENGTH` and `MAX_BANK_ACCOUNT_NUMBER_LENGTH`: declared but never used; the validators test digits only.
- `strtolower` is modelled as ASCII-only, as in PHP 8.2 and later; older locale-dependent lowering is not modelled.
- Calling `results` twice on the same file gives the same batch: this holds because `Results` is specified by functions of its inputs; there is no separate lemma.
