/** `MBankSKParser` of mbank_sk.py: the Slovak statement export read row by
    row. Header rows fill the statement's currency, BIC and account number;
    transaction rows become statement lines with naive dates and a
    transaction type taken from the exact description in field 2. */
module MBankSK {
  import opened Wrappers
  import opened PyText
  import opened PyDate
  import opened StatementRows

  // ---------------------------------------------------------------------
  // Header

  /** The statement fields the parser fills: currency, BIC and account
      number. */
  datatype SkHeader = SkHeader(currency: Option<string>, bankId: Option<string>, accountId: Option<string>)

  const EmptySkHeader := SkHeader(None, None, None)

  /** The patterns matched at the start of the previous row's lead field:
      `^#Mena ..tu`, `^#BIC`, `^#..slo ..tu:`. */
  const CurrencyMarker := "#Mena ..tu"
  const BicMarker := "#BIC"
  const AccountMarker := "#..slo ..tu:"

  /** Lines 59-67: currency, BIC and account number are taken from the lead
      field `lead` while falsy, when the previous row's lead field `last`
      carries their pattern. */
  function SkHeaderStep(h: SkHeader, last: string, lead: string): SkHeader {
    var h1 := if !TruthyText(h.currency) && StartsWithPattern(CurrencyMarker, last)
              then h.(currency := Some(lead)) else h;
    var h2 := if !TruthyText(h1.bankId) && StartsWithPattern(BicMarker, last)
              then h1.(bankId := Some(lead)) else h1;
    if !TruthyText(h2.accountId) && StartsWithPattern(AccountMarker, last)
    then h2.(accountId := Some(lead)) else h2
  }

  // ---------------------------------------------------------------------
  // Statement lines

  /** The statement line the parser returns. Both dates are naive.
      `trntype` is None where the parser leaves `StatementLine`'s own
      default in place. `trnTypeAttr` is the extra attribute `trn_type`
      that lines 81-86 attach to the object; `StatementLine` has no field
      of that name and never reads it. */
  datatype SkLine = SkLine(
    dateUser: Stamp,
    date: Stamp,
    payee: string,
    memo: string,
    amount: real,
    trntype: Option<string>,
    trnTypeAttr: Option<string>)

  /** The execution-date pattern in the memo: "DÁTUM VYKONANIA TRANSAKCIE: ". */
  const ExecDateMarker := "D\U{c1}TUM VYKONANIA TRANSAKCIE: "

  /** The two descriptions the parser recognises. */
  const CardPayment := "PLATBA KARTOU"
  const AtmWithdrawal := "V\U{dd}BER V BANKOMATE"

  /** Lines 81-86: the transaction type of an exact description. */
  function SkTrnType(desc: string): string {
    if desc == CardPayment then "PAYMENT"
    else if desc == AtmWithdrawal then "ATM"
    else "XFER"
  }

  /** Lines 81-86 as written: the type is stored in the attribute
      `trn_type`, which is not the statement line's `trntype` field, so the
      line leaves the parser with its type untouched. */
  function SkTypedAsWritten(l: SkLine, desc: string): (r: SkLine)
    ensures r.trntype == l.trntype
    ensures r.trnTypeAttr == Some(SkTrnType(desc))
    ensures r.(trnTypeAttr := l.trnTypeAttr) == l
  {
    l.(trnTypeAttr := Some(SkTrnType(desc)))
  }

  /** Lines 81-86 as evidently intended, like mbank_cz.py:140: the type goes
      into `trntype`. */
  function SkTyped(l: SkLine, desc: string): (r: SkLine)
    ensures r.trntype == Some(SkTrnType(desc))
    ensures r.(trntype := l.trntype) == l
  {
    l.(trntype := Some(SkTrnType(desc)))
  }

  /** Lines 78-86 for a row whose lead field has already been rewritten:
      the base mapping, the user date read again from the lead field, and
      the type, stored as written (`intended` false) or as evidently
      intended (`intended` true). */
  function SkLineOf(floatOf: string -> Option<real>, intended: bool, row: seq<string>): Result<SkLine>
    requires |row| > 10
  {
    var m :- MapRow(floatOf, row);
    // Line 79 reads the user date only when `date_user` is non-empty. That
    // always holds here: `date_user` is the raw field 0, which is either the
    // date-shaped original or the rewritten text with two dashes.
    var dateUser :- match StrpDate(row[0], '-')
                    case None => Err(BadDate(row[0]))
                    case Some(d) => Ok(d);
    var l := SkLine(Stamp(dateUser, false, false), Stamp(m.date, false, false), m.payee, m.memo, m.amount, None, None);
    Ok(if intended then SkTyped(l, row[2]) else SkTypedAsWritten(l, row[2]))
  }

  /** What one call of `parse_record` leaves behind: the new header, the new
      `last_line`, the row as the call has rewritten it, and the statement
      line returned, if any. */
  datatype SkOutcome = SkOutcome(header: SkHeader, lastLine: string, row: seq<string>, line: Option<SkLine>)

  /** One call of `parse_record(row)` with header `h` and `last_line` equal to
      `last`; an error is the exception the call raises. The source as
      written is `intended` false. */
  function SkRecord(floatOf: string -> Option<real>, intended: bool, h: SkHeader, last: string, row: seq<string>): Result<SkOutcome> {
    if |row| == 0 then Err(MissingField(0))
    else
      var h1 := SkHeaderStep(h, last, row[0]);
      if !IsTransactionRow(row) then Ok(SkOutcome(h1, row[0], row, None))
      else
        var row1 := RewrittenRow(ExecDateMarker, row);
        var line :- SkLineOf(floatOf, intended, row1);
        Ok(SkOutcome(h1, row[0], row1, Some(line)))
  }

  /** What a run of `parse_record` calls over the rows of a file leaves
      behind: the header, `last_line`, and the statement lines in row
      order. */
  datatype SkRun = SkRun(header: SkHeader, lastLine: string, lines: seq<SkLine>)

  /** The rows fed one by one to `parse_record`, as the library's `parse()`
      does, keeping every line returned; the first exception ends the run. */
  function SkRunOf(floatOf: string -> Option<real>, intended: bool, h: SkHeader, last: string, rows: seq<seq<string>>): Result<SkRun>
    decreases |rows|
  {
    if |rows| == 0 then Ok(SkRun(h, last, []))
    else
      var o :- SkRecord(floatOf, intended, h, last, rows[0]);
      var rest :- SkRunOf(floatOf, intended, o.header, o.lastLine, rows[1..]);
      Ok(rest.(lines := (if o.line.Some? then [o.line.value] else []) + rest.lines))
  }

  // ---------------------------------------------------------------------
  // The parser object

  class SkParser {
    const floatOf: string -> Option<real>
    var header: SkHeader
    var lastLine: string

    /** `MBankSKParser(filename)`: an empty statement and an empty
        `last_line`. */
    constructor(floatOf: string -> Option<real>)
      ensures this.floatOf == floatOf
      ensures header == EmptySkHeader && lastLine == ""
    {
      this.floatOf := floatOf;
      header := EmptySkHeader;
      lastLine := "";
    }

    /** Lines 78-86 for a row whose lead field has been rewritten, as
        written: the if/elif chain's type lands in `trn_type`. */
    method ParseTransaction(row: seq<string>) returns (res: Result<SkLine>)
      requires |row| > 10
      ensures res == SkLineOf(floatOf, false, row)
    {
      var m := MapRow(floatOf, row);
      if m.Err? {
        return Err(m.error);
      }
      var dateUser := StrpDate(row[0], '-');
      if dateUser.None? {
        return Err(BadDate(row[0]));
      }
      var l := SkLine(Stamp(dateUser.value, false, false), Stamp(m.value.date, false, false),
                      m.value.payee, m.value.memo, m.value.amount, None, None);
      var trnType: string;
      if row[2] == CardPayment {
        trnType := "PAYMENT";
      } else if row[2] == AtmWithdrawal {
        trnType := "ATM";
      } else {
        trnType := "XFER";
      }
      return Ok(l.(trnTypeAttr := Some(trnType)));
    }

    /** Lines 59-67. */
    method UpdateTextFields(lead: string)
      modifies this
      ensures header == SkHeaderStep(old(header), lastLine, lead)
      ensures lastLine == old(lastLine)
    {
      if !TruthyText(header.currency) && StartsWithPattern(CurrencyMarker, lastLine) {
        header := header.(currency := Some(lead));
      }
      if !TruthyText(header.bankId) && StartsWithPattern(BicMarker, lastLine) {
        header := header.(bankId := Some(lead));
      }
      if !TruthyText(header.accountId) && StartsWithPattern(AccountMarker, lastLine) {
        header := header.(accountId := Some(lead));
      }
    }

    /** `parse_record(line)`: updates the header and `last_line`, rewrites
        `line[0]` of a transaction row in place and returns its statement
        line; on an error, the exception abandons the parse. */
    method ParseRecord(line: array<string>) returns (res: Result<Option<SkLine>>)
      modifies this, line
      ensures var spec := SkRecord(floatOf, false, old(header), old(lastLine), old(line[..]));
              && (spec.Err? ==> res == Err(spec.error))
              && (spec.Ok? ==> && res == Ok(spec.value.line)
                               && header == spec.value.header
                               && lastLine == spec.value.lastLine
                               && line[..] == spec.value.row)
    {
      if line.Length == 0 {
        return Err(MissingField(0));
      }
      UpdateTextFields(line[0]);
      lastLine := line[0];
      if !(line.Length > 10 && DateShaped(line[0]) && DateShaped(line[1])) {
        return Ok(None);
      }
      var hit := SearchGroups(ExecDateMarker, line[3]);
      if hit.Some? {
        line[0] := ReversedDate(hit.value.groups);
      }
      assert line[..] == RewrittenRow(ExecDateMarker, old(line[..]));
      var l := ParseTransaction(line[..]);
      if l.Err? {
        return Err(l.error);
      }
      return Ok(Some(l.value));
    }
  }
}
