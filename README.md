# mBank CZ/SK statement parsers, modelled in Dafny

This project models the two statement parsers of the `ofxstatement-mbank-cz`
plugin, `MBankCZParser` (Czech export, `mbank_cz.py`) and `MBankSKParser`
(Slovak export, `mbank_sk.py`), and proves properties of them.

Each parser is a state machine fed one CSV row at a time by the host
library's `parse()`. It remembers two things between rows:

- the statement header found so far: currency, BIC and account number, and
  for the Czech parser also the statement period and the opening and closing
  balances;
- `last_line`, the lead field of the previous row.

Each row is handled as follows:

- A header row fills a header field. The field is filled only while it is
  still falsy, and only when the previous row's lead field (or, for the
  balances, field 6 of the current row) carries its label.
- A transaction row becomes a statement line. A transaction row has more
  than 10 fields, and fields 0 and 1 both have the shape `dd-dd-dddd`.
- Any other row produces nothing.

For each transaction row, the parser:

1. Rewrites field 0, in place, from the execution date quoted in the memo.
2. Maps the fields positionally.
3. Reads the amount with the space/comma cleanup.
4. Attaches the dates (at UTC+01:00 for CZ, naive for SK).
5. CZ only: builds the `/VS…/SS…/KS…` reference and cleans the
   counter-account of spaces and apostrophes.
6. Classifies the description. CZ uses a pattern table (first match wins,
   `OTHER` otherwise). SK uses exact string equality (`XFER` otherwise).
7. CZ only: overrides the payee of card payments with the memo's text before
   its first `/`, stripped.
8. CZ only: computes an 18-character identifier from the base64 text of an
   md5 hex digest.

The project has one module per concern:

- `Wrappers`: the `Option` and `Result` datatypes, and the parser's errors as values.
- `PyText`: the pieces of Python `str` and `re` the parsers rely on. These are
  `strip`, `split`, character-class removal, `replace`, anchored wildcard
  prefixes, the `.*` search, the date-shape test and the `(\d+)-(\d+)-(\d+)`
  search.
- `PyDate`: `strptime` for `%d-%m-%Y` and `%d.%m.%Y`, and as its partner the
  zero-padded `dd<sep>mm<sep>yyyy` text of a date.
- `Base64`: the standard base64 encoder and its decoder.
- `StatementRows`: what both parsers do alike to a row. This covers amount
  cleanup, the transaction-row test, the lead-field rewrite, the base
  mapping, truthiness and runs over the rows of a file.
- `MBankCZ` and `MBankSK`: the parsers. Each is split into pure functions
  describing one `parse_record` call, and a class whose methods update the
  header and `last_line` in place and rewrite `line[0]` of an `array`. Each
  method is proved equal to its function.
- `MBankCZProps` and `MBankSKProps`: the properties.

A run over a whole file is the fold `CzRunOf` / `SkRunOf` of single calls.

The Slovak functions `SkLineOf`, `SkRecord` and `SkRunOf` take a flag
`intended`. With `intended` false they are the code as written, where the
transaction type is stored in a stray `trn_type` attribute. The class
`SkParser` is proved equal to them with the flag false. With `intended`
true they are the corrected program, where the type lands in `trntype`
(see Findings).

## Model

| member | source | states |
|---|---|---|
| PyText.FirstSegment | src/ofxstatement/plugins/mbank_cz.py:142 | `split('/')[0]` is the prefix of the text up to its first separator, holds no separator, and ends at that separator or at the end of the text |
| PyText.StripSpec | src/ofxstatement/plugins/mbank_cz.py:144 | `strip()` returns the slice after the leading whitespace; only whitespace precedes and follows it, and it neither starts nor ends with whitespace |
| PyText.WithoutChars | src/ofxstatement/plugins/mbank_cz.py:132 | `re.sub` of a character class with "" leaves no character of the class |
| PyText.WithoutCounts | src/ofxstatement/plugins/mbank_cz.py:132 | `re.sub` of a character class keeps every other character as often as it occurred |
| PyText.WithoutAppend | src/ofxstatement/plugins/mbank_cz.py:132 | `re.sub` of a character class works piece by piece, so the kept characters keep their order |
| PyText.ReplaceCharCounts | src/ofxstatement/plugins/mbank_cz.py:76 | `replace(a, b)` leaves no `a`, adds one `b` per `a` and keeps every other character's count |
| PyText.DigitRunSpec | src/ofxstatement/plugins/mbank_cz.py:116 | a greedy `\d+` consumes only digits, and stops at a non-digit or at the end |
| PyText.MatchPrefixSound | src/ofxstatement/plugins/mbank_cz.py:116 | the groups the matcher returns for `marker(\d+)-(\d+)-(\d+)` are a match: non-empty digit runs separated by dashes, the last one greedy |
| PyText.MatchPrefixComplete | src/ofxstatement/plugins/mbank_cz.py:116 | every match of the pattern at the front of a text is the one the matcher returns, so the groups are unique |
| PyText.GroupsMatchAtSpec | src/ofxstatement/plugins/mbank_cz.py:116 | at any position, the anchored matcher returns exactly the match that exists there, both directions |
| PyText.SearchGroupsFromSpec | src/ofxstatement/plugins/mbank_cz.py:116 | `re.search` reports the leftmost matching position with its groups, no earlier position matches, and it reports nothing only when no position matches |
| PyDate.StrpDateOfFormat | src/ofxstatement/plugins/mbank_cz.py:101-102 | `strptime` with `%d.%m.%Y` or `%d-%m-%Y` reads back the zero-padded `dd<sep>mm<sep>yyyy` text of every date `datetime` accepts |
| PyDate.StrpShapedDate | src/ofxstatement/plugins/mbank_cz.py:137-138 | on a `dd-dd-dddd` field, `strptime("%d-%m-%Y")` succeeds exactly when the digits name a real date; a trailing line break, which the row test lets through, makes it fail |
| Base64.SextetRoundTrip | src/ofxstatement/plugins/mbank_cz.py:26 | every six-bit value has an alphabet character that decodes back to it |
| Base64.EncodeLength | src/ofxstatement/plugins/mbank_cz.py:26 | `b64encode` of n bytes has 4·⌈n/3⌉ characters |
| Base64.DecodeEncode | src/ofxstatement/plugins/mbank_cz.py:26 | `b64encode` is reversible: decoding the encoding of any bytes gives them back |
| Base64.EncodePrefix | src/ofxstatement/plugins/mbank_cz.py:26 | the first 4k characters of an encoding encode the first 3k bytes and are all alphabet characters |
| Base64.EncodeGroupAt | src/ofxstatement/plugins/mbank_cz.py:26 | characters 4k to 4k+4 of an encoding are the group of bytes 3k to 3k+3 |
| StatementRows.AmountText | src/ofxstatement/plugins/mbank_cz.py:74-77 | the `parse_float` cleanup leaves no space and no comma, turns each comma into a dot and keeps every other character's count |
| StatementRows.AmountTextAppend | src/ofxstatement/plugins/mbank_cz.py:74-77 | the cleanup works piece by piece and keeps the order of what it keeps |
| StatementRows.AmountTextOne | src/ofxstatement/plugins/mbank_cz.py:74-77 | on one character: a space is dropped, a comma becomes a dot, anything else stays; with `AmountTextAppend` this fixes the cleaned text of every string, order included |
| StatementRows.WithoutAbsent | src/ofxstatement/plugins/mbank_cz.py:75 | removing characters a text does not contain changes nothing |
| StatementRows.AmountTextClean | src/ofxstatement/plugins/mbank_cz.py:75-76 | text without spaces and commas passes the cleanup unchanged |
| StatementRows.AmountTextIdempotent | src/ofxstatement/plugins/mbank_cz.py:75-76 | cleaning an already cleaned amount changes nothing |
| StatementRows.RewrittenLeadNoMatch | src/ofxstatement/plugins/mbank_cz.py:116-119 | with no execution date in the memo, field 0 is left as it was |
| StatementRows.RewrittenLeadMatch | src/ofxstatement/plugins/mbank_cz.py:116-119 | with an execution date `a-b-c` in the memo, the leftmost one decides, and field 0 becomes `c-b-a` |
| StatementRows.ReversedDateFields | src/ofxstatement/plugins/mbank_cz.py:118-119 | the rewritten field splits at its dashes into the third, second and first captured groups |
| StatementRows.RewrittenRowKeeps | src/ofxstatement/plugins/mbank_cz.py:118-119 | the rewrite changes field 0 only and keeps the row's length |
| StatementRows.StrpReversedDate | src/ofxstatement/plugins/mbank_cz.py:118-138 | reading a rewritten field 0 gives day = third group, month = second, year = first |
| StatementRows.RewrittenLeadDate | src/ofxstatement/plugins/mbank_cz.py:116-138 | the user date read after the rewrite is the memo's leftmost execution date when there is one, and the row's own first date otherwise |
| StatementRows.LastLeadSpec | src/ofxstatement/plugins/mbank_cz.py:111 | feeding lead fields one by one into `last_line` leaves the last row's lead field, or the start value for no rows |
| MBankCZ.CreatePaymentTypes | src/ofxstatement/plugins/mbank_cz.py:28-42 | the dict the loop fills equals the insertion-ordered dict `PaymentTable(types)` |
| MBankCZ.BalanceText | src/ofxstatement/plugins/mbank_cz.py:103-110 | `re.sub("[ .a-zA-Z]", "").replace(",", ".")` leaves no space, letter or comma; the only dots stand for the commas; every other character keeps its count |
| MBankCZ.BalanceTextAppend | src/ofxstatement/plugins/mbank_cz.py:103-110 | the balance cleanup works piece by piece and keeps the order of what it keeps |
| MBankCZ.BalanceTextOne | src/ofxstatement/plugins/mbank_cz.py:103-110 | on one character: a space, dot or ASCII letter is dropped, a comma becomes a dot, anything else stays |
| MBankCZ.CounterAccount | src/ofxstatement/plugins/mbank_cz.py:131-134 | no counter-account iff field 5 is empty; otherwise its bank id is "" and its number has no space or apostrophe, with every other character kept as often as it was |
| MBankCZ.CounterAccountAppend | src/ofxstatement/plugins/mbank_cz.py:131-134 | the number of a counter-account keeps the order of the field's kept characters |
| MBankCZ.CounterAccountOne | src/ofxstatement/plugins/mbank_cz.py:131-134 | on a one-character field, a space or apostrophe leaves an empty number and anything else is the number |
| MBankCZ.CzParser.constructor | src/ofxstatement/plugins/mbank_cz.py:54-58 | a new parser has an empty header, an empty `last_line` and the dict built from `TRANSACTION_TYPES` |
| MBankCZ.CzParser.GetTrnType | src/ofxstatement/plugins/mbank_cz.py:79-85 | the nested loop with early return computes `TrnType`: the first key, in dict order, one of whose patterns fits, else `OTHER` |
| MBankCZ.CzParser.BuildRefNum | src/ofxstatement/plugins/mbank_cz.py:124-130 | the successive appends build `RefNum(vs, ss, ks)` |
| MBankCZ.CzParser.ParseTransaction | src/ofxstatement/plugins/mbank_cz.py:121-145 | the statement line of a rewritten transaction row, or the first error, is `CzLineOf` |
| MBankCZ.CzParser.UpdateTextFields | src/ofxstatement/plugins/mbank_cz.py:90-98 | currency, BIC and account are updated in place per `TextFieldsStep`; `last_line` is untouched |
| MBankCZ.CzParser.UpdatePeriod | src/ofxstatement/plugins/mbank_cz.py:99-102 | the period is updated in place per `PeriodStep`, or its strptime/index error is returned |
| MBankCZ.CzParser.UpdateBalances | src/ofxstatement/plugins/mbank_cz.py:103-110 | the balances are updated in place per `BalanceStep`, or the index/number error is returned |
| MBankCZ.CzParser.ParseRecord | src/ofxstatement/plugins/mbank_cz.py:87-146 | one `parse_record(line)` call: the result, new header, new `last_line` and the in-place rewritten row are those of `CzRecord`, or the call raises `CzRecord`'s error |
| MBankCZProps.HashShape | src/ofxstatement/plugins/mbank_cz.py:24-26 | the identifier has 18 base64 characters, and its first 16 decode to the ASCII of the digest's first 12 hex digits |
| MBankCZProps.HashKeepsDigestPrefix | src/ofxstatement/plugins/mbank_cz.py:24-26 | equal identifiers imply digests equal in their first 13 hex digits: the 18 characters fix 52 bits of the digest |
| MBankCZProps.PaymentTableSpec | src/ofxstatement/plugins/mbank_cz.py:28-42 | the dict holds exactly the recognised types of the input (CREDIT, DEBIT, ATM, PAYMENT, DIRECTDEBIT), each once, with its patterns, both directions |
| MBankCZProps.PaymentTableOrder | src/ofxstatement/plugins/mbank_cz.py:28-42 | the dict's keys come in the order of their first occurrence in the input |
| MBankCZProps.OfxPaymentTable | src/ofxstatement/plugins/mbank_cz.py:58 | built from the OFX transaction types, the dict is CREDIT, DEBIT, ATM, PAYMENT, DIRECTDEBIT in that order with their patterns |
| MBankCZProps.TrnTypeFirst | src/ofxstatement/plugins/mbank_cz.py:79-85 | the first entry with a fitting pattern gives the type |
| MBankCZProps.TrnTypeOther | src/ofxstatement/plugins/mbank_cz.py:79-85 | with no fitting entry the type is `OTHER` |
| MBankCZProps.TrnTypeCases | src/ofxstatement/plugins/mbank_cz.py:79-85 | the classifier is total: `OTHER` with nothing fitting, or the key of the first entry that fits |
| MBankCZProps.RefNumEmpty | src/ofxstatement/plugins/mbank_cz.py:124-130 | the reference is "" iff all three symbols are empty |
| MBankCZProps.DecodeRefNumRoundTrip | src/ofxstatement/plugins/mbank_cz.py:124-130 | for symbols without a slash, the reference reads back into VS, SS and KS: the segments come in that order and each is present iff its field is non-empty |
| MBankCZProps.PaymentPayeeSpec | src/ofxstatement/plugins/mbank_cz.py:141-144 | a card payment's payee is the memo's text before its first `/`, with the whitespace at both ends removed and nothing else |
| MBankCZProps.CzRecordSteps | src/ofxstatement/plugins/mbank_cz.py:87-146 | a successful call is the header step, then `last_line := line[0]`, then a line iff the row is a transaction row, built from the rewritten row |
| MBankCZProps.HeaderStepText | src/ofxstatement/plugins/mbank_cz.py:90-98 | currency, BIC and account take field 0 exactly when falsy and the previous lead field carries their label, and are kept otherwise |
| MBankCZProps.HeaderStepKeeps | src/ofxstatement/plugins/mbank_cz.py:99-110 | a set period and truthy balances are never overwritten |
| MBankCZProps.HeaderStepPeriod | src/ofxstatement/plugins/mbank_cz.py:99-102 | after a period label, the period runs from field 0's date at midnight to field 1's date at 23:59:59, both read with `%d.%m.%Y` at UTC+01:00 |
| MBankCZProps.HeaderStepQuiet | src/ofxstatement/plugins/mbank_cz.py:99-110 | a row that is neither a period nor a balance row cannot fail the header step and changes only the text fields |
| MBankCZProps.LineOfFields | src/ofxstatement/plugins/mbank_cz.py:121-144 | the line's currency, reference, counter-account, type, payee (overridden only for PAYMENT), memo, amount and both dates at UTC+01:00 |
| MBankCZProps.LineOfId | src/ofxstatement/plugins/mbank_cz.py:145 | the id is `calculateHash` of the line as it was before the id was set, 18 base64 characters |
| MBankCZProps.LineOfErrors | src/ofxstatement/plugins/mbank_cz.py:121-138 | the line fails exactly when the date, the amount or the user date cannot be read, with the first error in that order |
| MBankCZProps.LineOfUserDate | src/ofxstatement/plugins/mbank_cz.py:116-138 | the user date is the memo's leftmost execution date when there is one, and the row's own first date otherwise |
| MBankCZProps.CzRecordKeeps | src/ofxstatement/plugins/mbank_cz.py:90-110 | one call never overwrites a truthy text field, a set period or a truthy balance |
| MBankCZProps.CzRunStep | src/ofxstatement/plugins/mbank_cz.py:60-67 | a successful run is the first call followed by the run of the rest from the state it leaves, lines in row order |
| MBankCZProps.CzRunKeeps | src/ofxstatement/plugins/mbank_cz.py:90-110 | over a whole file, the first truthy value wins for every header field |
| MBankCZProps.CzRunCount | src/ofxstatement/plugins/mbank_cz.py:112-146 | a successful run yields exactly one statement line per transaction row |
| MBankCZProps.CzRunNoEmptyRow | src/ofxstatement/plugins/mbank_cz.py:90-92 | a run succeeds only if no row is empty, since `line[0]` is read on every call |
| MBankCZProps.CzRunLastLead | src/ofxstatement/plugins/mbank_cz.py:111 | after a run, `last_line` is what feeding the lead fields one by one leaves |
| MBankCZProps.CzRunLast | src/ofxstatement/plugins/mbank_cz.py:111 | after a run, `last_line` is the last row's lead field |
| MBankSK.SkTypedAsWritten | src/ofxstatement/plugins/mbank_sk.py:81-86 | as written, the type goes into the attribute `trn_type`, which holds the description's type, and the line's `trntype` is unchanged |
| MBankSK.SkTyped | src/ofxstatement/plugins/mbank_sk.py:81-86 | as intended, the line's `trntype` is the description's type and nothing else changes |
| MBankSK.SkParser.constructor | src/ofxstatement/plugins/mbank_sk.py:32-35 | a new parser has an empty header and an empty `last_line` |
| MBankSK.SkParser.ParseTransaction | src/ofxstatement/plugins/mbank_sk.py:78-86 | the statement line of a rewritten transaction row, or the first error, is `SkLineOf` as written: the if/elif chain's type is stored as `trn_type` and `trntype` keeps its default |
| MBankSK.SkParser.UpdateTextFields | src/ofxstatement/plugins/mbank_sk.py:59-67 | currency, BIC and account are updated in place per `SkHeaderStep`; `last_line` is untouched |
| MBankSK.SkParser.ParseRecord | src/ofxstatement/plugins/mbank_sk.py:56-87 | one `parse_record(line)` call: the result, new header, new `last_line` and the in-place rewritten row are those of `SkRecord` as written (`intended` false), or the call raises `SkRecord`'s error |
| MBankSKProps.SkTrnTypeCases | src/ofxstatement/plugins/mbank_sk.py:81-86 | the classifier is total and exact: PAYMENT iff "PLATBA KARTOU", ATM iff "VÝBER V BANKOMATE", XFER iff neither |
| MBankSKProps.SkTrnTypeLostAsWritten | src/ofxstatement/plugins/mbank_sk.py:81-86 | as written, a card payment leaves the parser without its PAYMENT type |
| MBankSKProps.SkTypedSpec | src/ofxstatement/plugins/mbank_sk.py:81-86 | as intended, the type reaches the line and the dates, payee, memo and amount are untouched |
| MBankSKProps.SkHeaderStepFields | src/ofxstatement/plugins/mbank_sk.py:59-67 | a header field changes only when it is falsy and `last_line` carries its label, and then it takes field 0; both directions |
| MBankSKProps.SkRecordSteps | src/ofxstatement/plugins/mbank_sk.py:56-87 | a successful call is the header step, then `last_line := line[0]`, then a line iff the row is a transaction row, built from the rewritten row |
| MBankSKProps.SkRecordFails | src/ofxstatement/plugins/mbank_sk.py:56-87 | an empty row raises an index error, a non-transaction row returns nothing and keeps the row, and a transaction row fails iff its line cannot be built |
| MBankSKProps.SkLineFields | src/ofxstatement/plugins/mbank_sk.py:78-86 | the line's payee, memo, amount and naive dates read with `%d-%m-%Y`; as written `trntype` is `None` and `trn_type` holds the description's type, as intended `trntype` holds it and `trn_type` is unset |
| MBankSKProps.SkLineErrors | src/ofxstatement/plugins/mbank_sk.py:78-80 | the line fails exactly when the date, the amount or the user date cannot be read, with the first error in that order |
| MBankSKProps.SkLineUserDate | src/ofxstatement/plugins/mbank_sk.py:73-80 | the user date is the memo's leftmost execution date when there is one, and the row's own first date otherwise |
| MBankSKProps.SkRunStep | src/ofxstatement/plugins/mbank_sk.py:37-44 | a successful run is the first call followed by the run of the rest, lines in row order |
| MBankSKProps.SkRunKeeps | src/ofxstatement/plugins/mbank_sk.py:59-67 | over a whole file, the first truthy currency, BIC and account win |
| MBankSKProps.SkRunCount | src/ofxstatement/plugins/mbank_sk.py:69-87 | a successful run yields exactly one statement line per transaction row |
| MBankSKProps.SkRunNoEmptyRow | src/ofxstatement/plugins/mbank_sk.py:59-68 | a run succeeds only if no row is empty |
| MBankSKProps.SkRunLastLead | src/ofxstatement/plugins/mbank_sk.py:68 | after a run, `last_line` is what feeding the lead fields one by one leaves |
| MBankSKProps.SkRunLast | src/ofxstatement/plugins/mbank_sk.py:68 | after a run, `last_line` is the last row's lead field |
| MBankSKProps.SkLineTyped | src/ofxstatement/plugins/mbank_sk.py:81-86 | as written, a line built from a transaction row carries no `trntype`; as intended, it carries PAYMENT, ATM or XFER |
| MBankSKProps.SkRecordTyped | src/ofxstatement/plugins/mbank_sk.py:81-86 | the line of a successful call, if any, carries no `trntype` as written, and one of the three types as intended |
| MBankSKProps.SkRunTyped | src/ofxstatement/plugins/mbank_sk.py:81-86 | as written, no statement line of a run carries a `trntype`; as intended, every one carries one of the three types |

## Left out

- Reading the file is left out, because it is I/O and library code: `parse()`
  opens the file as windows-1250 and `split_records` runs `csv.reader`. The
  input is a sequence of rows, each a sequence of strings. `CzRunOf` and
  `SkRunOf` stand for the library's loop that feeds `parse_record` and keeps
  its non-empty results. They assume that every row, empty ones included,
  reaches `parse_record`; whether the host loop skips empty rows is not part
  of this model, and `CzRunNoEmptyRow` / `SkRunNoEmptyRow` rest on that
  assumption.
- `MBankCZPlugin`, `MBankSKPlugin` and `get_parser` are left out: they only
  register the parsers with the host.
- `float()` and the base parser's `parse_decimal` are the parameters
  `floatOf` and `decimalOf`, because they are floating point and library
  code. The model returns `real`, with `None` where they raise. Only the
  string cleanup before them is modelled.
- `hashlib.md5(...).hexdigest()` and `str(stmt_line)` are the parameters
  `digest` and `render`, because they are foreign code. The digest is any
  function to 32 lower-case hex digits. The ASCII encoding, base64 and the
  truncation are modelled.
- `timezone(timedelta(hours=1))` and the `replace(hour=23, minute=59,
  second=59)` call become flags on a date. Time-zone arithmetic is not
  modelled.
- `print(stmt_line)` is debug output and is left out.
- `\d` in the patterns is modelled as the ASCII digits. Python's `re` also
  accepts other Unicode decimal digits there.
- `TRANSACTION_TYPES` comes from the host library, which is not part of this
  model. It is taken as the OFX list CREDIT … OTHER. The dict lemmas
  `PaymentTableSpec` and `PaymentTableOrder` hold for any list.
- The base `CsvStatementParser.parse_record` is not part of this model. Its
  mapping is modelled from the `mappings` dict:
  - `date_user` is the raw text of field 0;
  - `date` is read from field 1 with `date_format`;
  - `amount` is `parse_float(field 9)`;
  - `payee` and `memo` are fields 4 and 3.
  The date is converted first and the amount second.
- MBankCZ.CzParser.ParseRecord: when the call raises, the contract does not
  state the parser's header and `last_line`. An exception abandons the
  whole parse, so that state is never read again.
- MBankSK.SkParser.ParseRecord: the same holds when the call raises.
- As written, SK lines leave `trntype` at the host's `StatementLine`
  default. The model writes that default as `None`, because its value is not
  part of this model.

Three behaviours of the code that are easy to misread:

- A header field is set whenever it is still falsy, so an empty currency or
  a zero balance can be set again by a later row.
- A table marker is tested with `re.match(".*" + item)`, so it must fit on the
  first line of the description, and `.` in a marker matches any character
  except a line break.
- The Slovak classifier knows only "PLATBA KARTOU" and "VÝBER V BANKOMATE",
  and gives XFER for everything else.

## Findings

| source | as written | input that shows it | evidently intended | confidence | as-written member | corrected member |
|---|---|---|---|---|---|---|
| src/ofxstatement/plugins/mbank_sk.py:81-86 | the type is stored as `stmt_line.trn_type`, an attribute `StatementLine` does not read, so the line's `trntype` keeps its default | a transaction row whose field 2 is "PLATBA KARTOU": the line leaves the parser without PAYMENT | `stmt_line.trntype = ...`, as `mbank_cz.py:140` does; modelled by `SkLineOf`, `SkRecord` and `SkRunOf` with `intended` true | not executed | MBankSK.SkTypedAsWritten, MBankSKProps.SkTrnTypeLostAsWritten | MBankSK.SkTyped, MBankSKProps.SkTypedSpec, MBankSKProps.SkRunTyped |
