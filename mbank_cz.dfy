/** The Czech mBank statement parser (`MBankCZParser`): a state machine fed
    one CSV row at a time. It remembers the statement header it has found so
    far and the lead field of the previous row; header rows fill the header,
    transaction rows become statement lines. */
module MBankCZ {
  import opened Wrappers
  import opened PyText
  import opened PyDate
  import opened StatementRows
  import Base64

  // ---------------------------------------------------------------------
  // The pieces the parser calls but does not define

  /** Lower-case hexadecimal digits. */
  predicate IsHexChar(c: char) { ('0' <= c <= '9') || ('a' <= c <= 'f') }

  /** What `hashlib.md5(...).hexdigest()` returns: 32 lower-case hex digits. */
  type HexDigest = s: string | |s| == 32 && forall i | 0 <= i < |s| :: IsHexChar(s[i])
    witness "00000000000000000000000000000000"

  /** The library behaviour the parser relies on, as parameters:
      `digest(text)` is `hashlib.md5(text.encode()).hexdigest()`,
      `render(line)` is `str(stmt_line)`, `floatOf(text)` is `float(text)`
      and `decimalOf(text)` is the base parser's `parse_decimal(text)`, the
      last two None where they raise. */
  datatype Env = Env(
    digest: string -> HexDigest,
    render: CzLine -> string,
    floatOf: string -> Option<real>,
    decimalOf: string -> Option<real>)

  // ---------------------------------------------------------------------
  // Identifier

  /** `text.encode('ascii')`. */
  function AsciiBytes(s: string): seq<Base64.Byte>
    requires forall i | 0 <= i < |s| :: s[i] as int < 128
  {
    seq(|s|, i requires 0 <= i < |s| => s[i] as int)
  }

  /** `calculateHash` given the hex digest of the line's text: the first 18
      characters of the base64 encoding of the digest's ASCII bytes. */
  function CalculateHash(h: HexDigest): string {
    Base64.EncodeLength(AsciiBytes(h));
    Base64.Encode(AsciiBytes(h))[..18]
  }

  // ---------------------------------------------------------------------
  // Classification table

  /** `TRANSACTION_TYPES` of the OFX statement model, in its order. */
  const TransactionTypes: seq<string> :=
    [ "CREDIT", "DEBIT", "INT", "DIV", "FEE", "SRVCHG", "DEP", "ATM", "POS",
      "XFER", "CHECK", "PAYMENT", "CASH", "DIRECTDEP", "DIRECTDEBIT",
      "REPEATPMT", "OTHER" ]

  /** One item of the `paymentTypes` dict: a transaction type and the
      patterns that recognise it in the transaction description. */
  datatype Entry = Entry(key: string, markers: seq<string>)

  /** The `match` of `createPaymentTypes`: the patterns for the five types
      it recognises, and None for every other type. */
  function Markers(t: string): Option<seq<string>> {
    if t == "CREDIT" then Some(["P..CHOZ. PLATBA Z"])
    else if t == "DEBIT" then Some(["ODCHOZ. PLATBA DO", ".V.R"])
    else if t == "ATM" then Some(["BANKOMAT"])
    else if t == "PAYMENT" then Some(["KARTOU"])
    else if t == "DIRECTDEBIT" then Some(["INKASO", "SIPO"])
    else None
  }

  /** The dict has the key `k`. */
  predicate HasKey(table: seq<Entry>, k: string) {
    exists i | 0 <= i < |table| :: table[i].key == k
  }

  /** `d[key] = value` on an insertion-ordered dict: an existing key keeps
      its place and gets the new value, a new key goes last. */
  function Assign(table: seq<Entry>, key: string, value: seq<string>): seq<Entry> {
    if |table| == 0 then [Entry(key, value)]
    else if table[0].key == key then [Entry(key, value)] + table[1..]
    else [table[0]] + Assign(table[1..], key, value)
  }

  /** The dict `createPaymentTypes(types)` returns. */
  function PaymentTable(types: seq<string>): seq<Entry>
    decreases |types|
  {
    if |types| == 0 then []
    else
      var t := types[|types| - 1];
      var table := PaymentTable(types[..|types| - 1]);
      match Markers(t)
      case Some(ms) => Assign(table, t, ms)
      case None => table
  }

  /** `createPaymentTypes(types)`: the dict filled type by type. */
  method CreatePaymentTypes(types: seq<string>) returns (table: seq<Entry>)
    ensures table == PaymentTable(types)
  {
    table := [];
    for i := 0 to |types|
      invariant table == PaymentTable(types[..i])
    {
      var t := types[i];
      assert types[..i + 1][..i] == types[..i];
      match Markers(t) {
        case Some(ms) => table := Assign(table, t, ms);
        case None =>
      }
    }
    assert types[..|types|] == types;
  }

  /** `re.match(r".*" + item, desc)` holds for some item of the list. */
  predicate AnyFits(markers: seq<string>, desc: string) {
    exists j | 0 <= j < |markers| :: FitsOnFirstLine(markers[j], desc)
  }

  /** The first key, in dict order, one of whose patterns fits. */
  function FirstMatch(table: seq<Entry>, desc: string): Option<string> {
    if |table| == 0 then None
    else if AnyFits(table[0].markers, desc) then Some(table[0].key)
    else FirstMatch(table[1..], desc)
  }

  /** What `getTrnType(desc)` returns for the dict `table`. */
  function TrnType(table: seq<Entry>, desc: string): string {
    match FirstMatch(table, desc)
    case Some(k) => k
    case None => "OTHER"
  }

  // ---------------------------------------------------------------------
  // Header

  /** The statement header fields the parser fills; None is an attribute not
      set yet. */
  datatype Header = Header(
    currency: Option<string>,
    bankId: Option<string>,
    accountId: Option<string>,
    startDate: Option<Stamp>,
    endDate: Option<Stamp>,
    startBalance: Option<real>,
    endBalance: Option<real>)

  /** A fresh `Statement()`. */
  const EmptyHeader := Header(None, None, None, None, None, None, None)

  /** Patterns on the previous row's lead field: "Měna účtu", "BIC",
      "Číslo účtu", "Za období". */
  const CurrencyMarker := "#M.na ..tu"
  const BicMarker := "#BIC"
  const AccountMarker := "#..slo ..tu:"
  const PeriodMarker := "#Za obdob."

  /** Patterns on field 6 of the current row: "Počáteční zůstatek" and
      "Konečný zůstatek". */
  const OpeningMarker := "#Po..te.n. z.statek:"
  const ClosingMarker := "#Kone.n. z.statek:"

  /** The characters `re.sub("[ .a-zA-Z]", "", ...)` removes. */
  const BalanceNoise: set<char> := {' ', '.'} + set c: char | 'A' <= c <= 'Z' || 'a' <= c <= 'z'

  /** `re.sub("[ .a-zA-Z]", "", s).replace(",", ".")`: no space, ASCII
      letter or comma is left, the only dots are the ones that stand for the
      commas, and every other character is kept as often as it was. */
  function BalanceText(s: string): (r: string)
    ensures forall i | 0 <= i < |r| :: r[i] != ',' && (r[i] in BalanceNoise ==> r[i] == '.')
    ensures multiset(r)['.'] == multiset(s)[',']
    ensures forall c | c !in BalanceNoise && c != ',' :: multiset(r)[c] == multiset(s)[c]
  {
    var t := Without(s, BalanceNoise);
    WithoutChars(s, BalanceNoise);
    BalanceChars(t);
    BalanceCounts(s, t);
    ReplaceChar(t, ',', '.')
  }

  /** The balance cleanup works character by character and keeps the
      order. */
  lemma BalanceTextAppend(s: string, t: string)
    ensures BalanceText(s + t) == BalanceText(s) + BalanceText(t)
  {
    WithoutAppend(s, t, BalanceNoise);
    ReplaceCharAppend(Without(s, BalanceNoise), Without(t, BalanceNoise), ',', '.');
  }

  /** One character: a space, a dot or an ASCII letter is dropped, a comma
      becomes a dot, anything else is kept. With `BalanceTextAppend` this
      fixes the cleaned text of every string. */
  lemma BalanceTextOne(c: char)
    ensures BalanceText([c]) == if c in BalanceNoise then [] else if c == ',' then "." else [c]
  {
    WithoutOne(c, BalanceNoise);
  }

  lemma BalanceChars(t: string)
    requires forall i | 0 <= i < |t| :: t[i] !in BalanceNoise
    ensures var r := ReplaceChar(t, ',', '.');
            forall i | 0 <= i < |r| :: r[i] != ',' && (r[i] in BalanceNoise ==> r[i] == '.')
  {
  }

  lemma BalanceCounts(s: string, t: string)
    requires t == Without(s, BalanceNoise)
    ensures var r := ReplaceChar(t, ',', '.');
            && multiset(r)['.'] == multiset(s)[',']
            && forall c | c !in BalanceNoise && c != ',' :: multiset(r)[c] == multiset(s)[c]
  {
    WithoutChars(s, BalanceNoise);
    WithoutCounts(s, BalanceNoise);
    ReplaceCharCounts(t, ',', '.');
    assert '.' in BalanceNoise;
    assert '.' !in t;
    BalanceCountsCompose(multiset(s), multiset(t), multiset(ReplaceChar(t, ',', '.')));
  }

  lemma BalanceCountsCompose(s: multiset<char>, t: multiset<char>, r: multiset<char>)
    requires forall c | c !in BalanceNoise :: t[c] == s[c]
    requires t['.'] == 0
    requires r['.'] == t['.'] + t[',']
    requires forall c | c != ',' && c != '.' :: r[c] == t[c]
    ensures r['.'] == s[',']
    ensures forall c | c !in BalanceNoise && c != ',' :: r[c] == s[c]
  {
    assert ',' !in BalanceNoise;
  }

  /** Lines 101-102: the period's first day at midnight and its last day at
      23:59:59, both read with "%d.%m.%Y" and both at UTC+01:00. */
  function PeriodOf(row: seq<string>): Result<(Stamp, Stamp)>
    requires |row| > 0
  {
    match StrpDate(row[0], '.')
    case None => Err(BadDate(row[0]))
    case Some(first) =>
      if |row| < 2 then Err(MissingField(1))
      else
        match StrpDate(row[1], '.')
        case None => Err(BadDate(row[1]))
        case Some(last) => Ok((Stamp(first, false, true), Stamp(last, true, true)))
  }

  /** A balance read from field 7: the opening one with `parse_decimal`,
      the closing one with `parse_float`. */
  function BalanceValue(env: Env, closing: bool, row: seq<string>): Result<real> {
    if |row| < 8 then Err(MissingField(7))
    else
      var text := BalanceText(row[7]);
      match if closing then ParseFloat(env.floatOf, text) else env.decimalOf(text)
      case None => Err(BadNumber(text))
      case Some(v) => Ok(v)
  }

  /** Lines 90-98: currency, BIC and account number are taken from the lead
      field `lead` while falsy, when the previous row's lead field `last`
      carries their pattern. */
  function TextFieldsStep(h: Header, last: string, lead: string): Header {
    var h1 := if !TruthyText(h.currency) && StartsWithPattern(CurrencyMarker, last)
              then h.(currency := Some(lead)) else h;
    var h2 := if !TruthyText(h1.bankId) && StartsWithPattern(BicMarker, last)
              then h1.(bankId := Some(lead)) else h1;
    if !TruthyText(h2.accountId) && StartsWithPattern(AccountMarker, last)
    then h2.(accountId := Some(lead)) else h2
  }

  /** Lines 99-102: the statement period, while not set, after its pattern. */
  function PeriodStep(h: Header, last: string, row: seq<string>): Result<Header>
    requires |row| > 0
  {
    if h.startDate.None? && StartsWithPattern(PeriodMarker, last) then
      var p :- PeriodOf(row);
      Ok(h.(startDate := Some(p.0), endDate := Some(p.1)))
    else Ok(h)
  }

  /** Lines 103-110: the opening and closing balances, while falsy, from
      rows whose field 6 carries their pattern. */
  function BalanceStep(env: Env, h: Header, row: seq<string>): Result<Header> {
    var h1 :- if !TruthyNumber(h.startBalance) && |row| > 6 && StartsWithPattern(OpeningMarker, row[6]) then
                var v :- BalanceValue(env, false, row);
                Ok(h.(startBalance := Some(v)))
              else Ok(h);
    if !TruthyNumber(h1.endBalance) && |row| > 6 && StartsWithPattern(ClosingMarker, row[6]) then
      var v :- BalanceValue(env, true, row);
      Ok(h1.(endBalance := Some(v)))
    else Ok(h1)
  }

  /** The header after lines 90-110 of `parse_record`, given the previous
      row's lead field `last`. */
  function CzHeaderStep(env: Env, h: Header, last: string, row: seq<string>): Result<Header>
    requires |row| > 0
  {
    var h1 :- PeriodStep(TextFieldsStep(h, last, row[0]), last, row);
    BalanceStep(env, h1, row)
  }

  // ---------------------------------------------------------------------
  // Statement lines

  /** `BankAccount(bank_id, acct_id)`. */
  datatype BankAccount = BankAccount(bankId: string, acctId: string)

  /** The statement line the parser returns for a transaction row. `id` is
      None before `calculateHash` sets it. */
  datatype CzLine = CzLine(
    dateUser: Stamp,
    date: Stamp,
    payee: string,
    memo: string,
    amount: real,
    currency: Option<string>,
    refnum: string,
    bankAccountTo: Option<BankAccount>,
    trntype: string,
    id: Option<string>)

  /** The execution-date pattern in the memo: "DATUM PROVEDENÍ TRANSAKCE: ". */
  const ExecDateMarker := "DATUM PROVEDEN\U{cd} TRANSAKCE: "

  /** A reference segment: the tag and the field, or nothing for an empty
      field. */
  function Segment(tag: string, field: string): string {
    if |field| > 0 then tag + field else ""
  }

  /** The composite reference of lines 124-130. */
  function RefNum(vs: string, ss: string, ks: string): string {
    Segment("/VS", vs) + Segment("/SS", ss) + Segment("/KS", ks)
  }

  /** Lines 131-134: no counter-account for an empty field 5; otherwise an
      account with an empty bank id whose number is the field without its
      spaces and apostrophes, every other character kept as often as it
      was. */
  function CounterAccount(field: string): (r: Option<BankAccount>)
    ensures r.None? <==> field == ""
    ensures r.Some? ==> r.value.bankId == ""
    ensures r.Some? ==> forall i | 0 <= i < |r.value.acctId| :: r.value.acctId[i] != ' ' && r.value.acctId[i] != '\''
    ensures r.Some? ==> forall c | c != ' ' && c != '\'' :: multiset(r.value.acctId)[c] == multiset(field)[c]
  {
    WithoutChars(field, {' ', '\''});
    WithoutCounts(field, {' ', '\''});
    if |field| > 0 then Some(BankAccount("", Without(field, {' ', '\''}))) else None
  }

  /** The number of a counter-account of `s + t` is that of `s` followed by
      that of `t`, so the kept characters keep their order. */
  lemma CounterAccountAppend(s: string, t: string)
    requires s != "" && t != ""
    ensures CounterAccount(s + t).value.acctId == CounterAccount(s).value.acctId + CounterAccount(t).value.acctId
  {
    WithoutAppend(s, t, {' ', '\''});
  }

  /** A one-character field: a space or apostrophe leaves an empty number,
      anything else is the number. */
  lemma CounterAccountOne(c: char)
    ensures CounterAccount([c]).value.acctId == if c == ' ' || c == '\'' then [] else [c]
  {
    WithoutOne(c, {' ', '\''});
  }

  /** Lines 142-144: the memo before its first slash, stripped. */
  function PaymentPayee(memo: string): string {
    Strip(FirstSegment(memo, '/'))
  }

  /** The statement line for a transaction row whose lead field has already
      been rewritten, given the header's currency (lines 121-145). */
  function CzLineOf(env: Env, table: seq<Entry>, currency: Option<string>, row: seq<string>): Result<CzLine>
    requires |row| > 10
  {
    var m :- MapRow(env.floatOf, row);
    // Line 137 reads the user date only when `date_user` is non-empty. That
    // always holds here: `date_user` is the raw field 0, which is either the
    // date-shaped original or the rewritten text with two dashes.
    var dateUser :- match StrpDate(row[0], '-')
                    case None => Err(BadDate(row[0]))
                    case Some(d) => Ok(d);
    var trntype := TrnType(table, row[2]);
    var payee := if trntype == "PAYMENT" then PaymentPayee(row[3]) else m.payee;
    var draft := CzLine(Stamp(dateUser, false, true), Stamp(m.date, false, true), payee, m.memo,
                        m.amount, currency, RefNum(row[7], row[8], row[6]),
                        CounterAccount(row[5]), trntype, None);
    Ok(draft.(id := Some(CalculateHash(env.digest(env.render(draft))))))
  }

  /** What one call of `parse_record` leaves behind: the new header, the new
      `last_line`, the row as the call has rewritten it, and the statement
      line returned, if any. */
  datatype CzOutcome = CzOutcome(header: Header, lastLine: string, row: seq<string>, line: Option<CzLine>)

  /** One call of `parse_record(row)` with header `h` and `last_line` equal to
      `last`; an error is the exception the call raises. */
  function CzRecord(env: Env, table: seq<Entry>, h: Header, last: string, row: seq<string>): Result<CzOutcome> {
    if |row| == 0 then Err(MissingField(0))
    else
      var h1 :- CzHeaderStep(env, h, last, row);
      if !IsTransactionRow(row) then Ok(CzOutcome(h1, row[0], row, None))
      else
        var row1 := RewrittenRow(ExecDateMarker, row);
        var line :- CzLineOf(env, table, h1.currency, row1);
        Ok(CzOutcome(h1, row[0], row1, Some(line)))
  }

  /** What a run of `parse_record` calls over the rows of a file leaves
      behind: the header, `last_line`, and the statement lines in row
      order. */
  datatype CzRun = CzRun(header: Header, lastLine: string, lines: seq<CzLine>)

  /** The rows fed one by one to `parse_record`, as the library's `parse()`
      does, keeping every line returned; the first exception ends the run. */
  function CzRunOf(env: Env, table: seq<Entry>, h: Header, last: string, rows: seq<seq<string>>): Result<CzRun>
    decreases |rows|
  {
    if |rows| == 0 then Ok(CzRun(h, last, []))
    else
      var o :- CzRecord(env, table, h, last, rows[0]);
      var rest :- CzRunOf(env, table, o.header, o.lastLine, rows[1..]);
      Ok(rest.(lines := (if o.line.Some? then [o.line.value] else []) + rest.lines))
  }

  // ---------------------------------------------------------------------
  // The parser object

  class CzParser {
    const env: Env
    const paymentTypes: seq<Entry>
    var header: Header
    var lastLine: string

    /** `MBankCZParser(filename)`: an empty statement, an empty `last_line`
        and the dict built from `TRANSACTION_TYPES`. */
    constructor(env: Env)
      ensures this.env == env && paymentTypes == PaymentTable(TransactionTypes)
      ensures header == EmptyHeader && lastLine == ""
    {
      this.env := env;
      var table := CreatePaymentTypes(TransactionTypes);
      paymentTypes := table;
      header := EmptyHeader;
      lastLine := "";
    }

    /** `getTrnType(payType)`: the dict is walked in order, each key's
        patterns in order, and the first fit wins. */
    method GetTrnType(payType: string) returns (r: string)
      ensures r == TrnType(paymentTypes, payType)
    {
      var i := 0;
      while i < |paymentTypes|
        invariant 0 <= i <= |paymentTypes|
        invariant FirstMatch(paymentTypes[i..], payType) == FirstMatch(paymentTypes, payType)
      {
        var possibilities := paymentTypes[i].markers;
        var k := 0;
        while k < |possibilities|
          invariant 0 <= k <= |possibilities|
          invariant forall j | 0 <= j < k :: !FitsOnFirstLine(possibilities[j], payType)
        {
          if FitsOnFirstLine(possibilities[k], payType) {
            assert AnyFits(paymentTypes[i..][0].markers, payType);
            return paymentTypes[i].key;
          }
          k := k + 1;
        }
        assert paymentTypes[i..][1..] == paymentTypes[i + 1..];
        i := i + 1;
      }
      return "OTHER";
    }

    /** Lines 124-130: the reference built by successive appends. */
    static method BuildRefNum(vs: string, ss: string, ks: string) returns (refnum: string)
      ensures refnum == RefNum(vs, ss, ks)
    {
      refnum := "";
      if |vs| > 0 {
        assert [] + "/VS" == "/VS";
        refnum := refnum + "/VS" + vs;
      }
      assert refnum == Segment("/VS", vs);
      if |ss| > 0 {
        AppendAssoc(refnum, "/SS", ss);
        refnum := refnum + "/SS" + ss;
      }
      assert refnum == Segment("/VS", vs) + Segment("/SS", ss);
      if |ks| > 0 {
        AppendAssoc(refnum, "/KS", ks);
        refnum := refnum + "/KS" + ks;
      }
    }

    /** Lines 121-145 for a row whose lead field has been rewritten. */
    method ParseTransaction(row: seq<string>, currency: Option<string>) returns (res: Result<CzLine>)
      requires |row| > 10
      ensures res == CzLineOf(env, paymentTypes, currency, row)
    {
      var m := MapRow(env.floatOf, row);
      if m.Err? {
        return Err(m.error);
      }
      var refnum := BuildRefNum(row[7], row[8], row[6]);
      var account: Option<BankAccount>;
      if |row[5]| > 0 {
        account := Some(BankAccount("", Without(row[5], {' ', '\''})));
      } else {
        account := None;
      }
      var dateUser := StrpDate(row[0], '-');
      if dateUser.None? {
        return Err(BadDate(row[0]));
      }
      var trntype := GetTrnType(row[2]);
      var payee := m.value.payee;
      if trntype == "PAYMENT" {
        payee := Strip(FirstSegment(row[3], '/'));
      }
      assert account == CounterAccount(row[5]);
      var draft := CzLine(Stamp(dateUser.value, false, true), Stamp(m.value.date, false, true), payee,
                          m.value.memo, m.value.amount, currency, refnum, account, trntype, None);
      var id := CalculateHash(env.digest(env.render(draft)));
      return Ok(draft.(id := Some(id)));
    }

    /** Lines 90-98. */
    method UpdateTextFields(lead: string)
      modifies this
      ensures header == TextFieldsStep(old(header), lastLine, lead)
      ensures lastLine == old(lastLine)
    {
      if !TruthyText(header.currency) && StartsWithPattern(CurrencyMarker, lastLine) {
        header := header.(currency := Some(lead));
      }
      if !TruthyText(header.bankId) && StartsWithPattern(BicMarker, lastLine) {
        header := header.(bankId := Some(lead));
      }
      if !TruthyText(header.accountId) && StartsWithPattern(AccountMarker, lastLine) {
        header := header.(accountId := Some(lead));
      }
    }

    /** Lines 99-102. */
    method UpdatePeriod(row: seq<string>) returns (err: Option<Error>)
      requires |row| > 0
      modifies this
      ensures var spec := PeriodStep(old(header), lastLine, row);
              && (spec.Err? ==> err == Some(spec.error))
              && (spec.Ok? ==> err.None? && header == spec.value)
      ensures lastLine == old(lastLine)
    {
      if header.startDate.None? && StartsWithPattern(PeriodMarker, lastLine) {
        var p := PeriodOf(row);
        if p.Err? {
          return Some(p.error);
        }
        header := header.(startDate := Some(p.value.0), endDate := Some(p.value.1));
      }
      return None;
    }

    /** Lines 103-110. */
    method UpdateBalances(row: seq<string>) returns (err: Option<Error>)
      modifies this
      ensures var spec := BalanceStep(env, old(header), row);
              && (spec.Err? ==> err == Some(spec.error))
              && (spec.Ok? ==> err.None? && header == spec.value)
      ensures lastLine == old(lastLine)
    {
      if !TruthyNumber(header.startBalance) && |row| > 6 && StartsWithPattern(OpeningMarker, row[6]) {
        var v := BalanceValue(env, false, row);
        if v.Err? {
          return Some(v.error);
        }
        header := header.(startBalance := Some(v.value));
      }
      if !TruthyNumber(header.endBalance) && |row| > 6 && StartsWithPattern(ClosingMarker, row[6]) {
        var v := BalanceValue(env, true, row);
        if v.Err? {
          return Some(v.error);
        }
        header := header.(endBalance := Some(v.value));
      }
      return None;
    }

    /** `parse_record(line)`: updates the header and `last_line`, rewrites
        `line[0]` of a transaction row in place and returns its statement
        line; on an error, the exception abandons the parse. */
    method ParseRecord(line: array<string>) returns (res: Result<Option<CzLine>>)
      modifies this, line
      ensures var spec := CzRecord(env, paymentTypes, old(header), old(lastLine), old(line[..]));
              && (spec.Err? ==> res == Err(spec.error))
              && (spec.Ok? ==> && res == Ok(spec.value.line)
                               && header == spec.value.header
                               && lastLine == spec.value.lastLine
                               && line[..] == spec.value.row)
    {
      if line.Length == 0 {
        return Err(MissingField(0));
      }
      UpdateTextFields(line[0]);
      var err := UpdatePeriod(line[..]);
      if err.Some? {
        return Err(err.value);
      }
      err := UpdateBalances(line[..]);
      if err.Some? {
        return Err(err.value);
      }
      assert CzHeaderStep(env, old(header), old(lastLine), old(line[..])) == Ok(header);
      lastLine := line[0];
      if !(line.Length > 10 && DateShaped(line[0]) && DateShaped(line[1])) {
        return Ok(None);
      }
      var hit := SearchGroups(ExecDateMarker, line[3]);
      if hit.Some? {
        line[0] := ReversedDate(hit.value.groups);
      }
      assert line[..] == RewrittenRow(ExecDateMarker, old(line[..]));
      var l := ParseTransaction(line[..], header.currency);
      if l.Err? {
        return Err(l.error);
      }
      return Ok(Some(l.value));
    }
  }
}
