/** Properties of the Slovak parser model: the exact classifier and the
    type that never reaches the line as written, the header's first truthy
    value winning, the fields of a transaction line, and runs over a whole
    file. */
module MBankSKProps {
  import opened Wrappers
  import opened PyText
  import opened PyDate
  import opened StatementRows
  import opened MBankSK

  // ---------------------------------------------------------------------
  // Transaction type

  /** The classifier is total and exact: "PLATBA KARTOU" and only it is a
      card payment, "VÝBER V BANKOMATE" and only it a cash withdrawal, and
      everything else a transfer. */
  lemma SkTrnTypeCases(desc: string)
    ensures SkTrnType(desc) in {"PAYMENT", "ATM", "XFER"}
    ensures SkTrnType(desc) == "PAYMENT" <==> desc == CardPayment
    ensures SkTrnType(desc) == "ATM" <==> desc == AtmWithdrawal
    ensures SkTrnType(desc) == "XFER" <==> desc != CardPayment && desc != AtmWithdrawal
  {
  }

  /** As written, a card payment leaves the parser without its type: the
      line's `trntype` is still the default, not PAYMENT, and PAYMENT sits in
      an attribute nothing reads. */
  lemma SkTrnTypeLostAsWritten(l: SkLine)
    requires l.trntype.None?
    ensures SkTrnType(CardPayment) == "PAYMENT"
    ensures SkTypedAsWritten(l, CardPayment).trntype != Some(SkTrnType(CardPayment))
    ensures SkTypedAsWritten(l, CardPayment).trnTypeAttr == Some("PAYMENT")
  {
  }

  /** As evidently intended, the type of every description reaches the
      line, and nothing else about the line changes. */
  lemma SkTypedSpec(l: SkLine, desc: string)
    ensures var r := SkTyped(l, desc);
            && r.trntype == Some(SkTrnType(desc))
            && r.dateUser == l.dateUser && r.date == l.date && r.payee == l.payee
            && r.memo == l.memo && r.amount == l.amount && r.trnTypeAttr == l.trnTypeAttr
  {
    assert SkTyped(l, desc).(trntype := l.trntype) == l;
  }

  // ---------------------------------------------------------------------
  // Header

  /** Currency, BIC and account number are taken from the lead field only
      while falsy and only after a row whose lead field carries their
      pattern; a truthy value is never overwritten. */
  lemma SkHeaderStepFields(h: SkHeader, last: string, lead: string)
    ensures var h1 := SkHeaderStep(h, last, lead);
            && (h1.currency != h.currency ==> !TruthyText(h.currency) && StartsWithPattern(CurrencyMarker, last) && h1.currency == Some(lead))
            && (h1.bankId != h.bankId ==> !TruthyText(h.bankId) && StartsWithPattern(BicMarker, last) && h1.bankId == Some(lead))
            && (h1.accountId != h.accountId ==> !TruthyText(h.accountId) && StartsWithPattern(AccountMarker, last) && h1.accountId == Some(lead))
            && (!TruthyText(h.currency) && StartsWithPattern(CurrencyMarker, last) ==> h1.currency == Some(lead))
            && (!TruthyText(h.bankId) && StartsWithPattern(BicMarker, last) ==> h1.bankId == Some(lead))
            && (!TruthyText(h.accountId) && StartsWithPattern(AccountMarker, last) ==> h1.accountId == Some(lead))
  {
  }

  // ---------------------------------------------------------------------
  // One call of `parse_record`

  /** A successful call splits into the header step and, for a transaction
      row, the line built from the rewritten row. */
  lemma SkRecordSteps(floatOf: string -> Option<real>, intended: bool, h: SkHeader, last: string, row: seq<string>)
    requires SkRecord(floatOf, intended, h, last, row).Ok?
    ensures var o := SkRecord(floatOf, intended, h, last, row).value;
            && |row| > 0
            && o.header == SkHeaderStep(h, last, row[0])
            && o.lastLine == row[0]
            && (o.line.Some? <==> IsTransactionRow(row))
            && o.row == (if IsTransactionRow(row) then RewrittenRow(ExecDateMarker, row) else row)
            && (o.line.Some? ==> SkLineOf(floatOf, intended, RewrittenRow(ExecDateMarker, row)) == Ok(o.line.value))
  {
  }

  /** Only an empty row or a transaction row whose fields cannot be read
      makes a call fail; every other row succeeds without a line. */
  lemma SkRecordFails(floatOf: string -> Option<real>, intended: bool, h: SkHeader, last: string, row: seq<string>)
    ensures var r := SkRecord(floatOf, intended, h, last, row);
            && (|row| == 0 ==> r == Err(MissingField(0)))
            && (|row| > 0 && !IsTransactionRow(row) ==> r == Ok(SkOutcome(SkHeaderStep(h, last, row[0]), row[0], row, None)))
            && (IsTransactionRow(row) ==> (r.Err? <==> SkLineOf(floatOf, intended, RewrittenRow(ExecDateMarker, row)).Err?))
  {
  }

  /** The fields of the statement line built from a (rewritten) transaction
      row: the base mapping's payee, memo and amount, both dates naive and
      read with "%d-%m-%Y". As written, the type sits in the stray
      `trn_type` attribute and `trntype` keeps its default; as intended, it
      is in `trntype`. */
  lemma SkLineFields(floatOf: string -> Option<real>, intended: bool, row: seq<string>)
    requires |row| > 10 && SkLineOf(floatOf, intended, row).Ok?
    ensures var l := SkLineOf(floatOf, intended, row).value;
            && l.payee == row[4]
            && l.memo == row[3]
            && ParseFloat(floatOf, row[9]) == Some(l.amount)
            && StrpDate(row[0], '-') == Some(l.dateUser.date)
            && StrpDate(row[1], '-') == Some(l.date.date)
            && !l.date.utcPlusOne && !l.date.endOfDay && !l.dateUser.utcPlusOne && !l.dateUser.endOfDay
            && l.trntype == (if intended then Some(SkTrnType(row[2])) else None)
            && l.trnTypeAttr == (if intended then None else Some(SkTrnType(row[2])))
  {
  }

  /** Where `SkLineOf` fails: the date, then the amount, then the user date,
      each with the text that could not be read. */
  lemma SkLineErrors(floatOf: string -> Option<real>, intended: bool, row: seq<string>)
    requires |row| > 10
    ensures var r := SkLineOf(floatOf, intended, row);
            && (StrpDate(row[1], '-').None? ==> r == Err(BadDate(row[1])))
            && (StrpDate(row[1], '-').Some? && ParseFloat(floatOf, row[9]).None? ==> r == Err(BadNumber(AmountText(row[9]))))
            && (StrpDate(row[1], '-').Some? && ParseFloat(floatOf, row[9]).Some? && StrpDate(row[0], '-').None? ==> r == Err(BadDate(row[0])))
            && (r.Err? <==> StrpDate(row[1], '-').None? || ParseFloat(floatOf, row[9]).None? || StrpDate(row[0], '-').None?)
  {
  }

  /** The user date of a transaction line is the execution date quoted in
      the memo when there is one, and the row's own first date otherwise. */
  lemma SkLineUserDate(floatOf: string -> Option<real>, intended: bool, row: seq<string>)
    requires IsTransactionRow(row)
    requires SkLineOf(floatOf, intended, RewrittenRow(ExecDateMarker, row)).Ok?
    ensures var l := SkLineOf(floatOf, intended, RewrittenRow(ExecDateMarker, row)).value;
            && (forall p: nat, g | p <= |row[3]| && GroupsAt(ExecDateMarker, row[3], p, g)
                  && (forall j, k | 0 <= j < p :: !GroupsAt(ExecDateMarker, row[3], j, k)) ::
                  l.dateUser.date == CivilDate(DigitValue(g.third), DigitValue(g.second), DigitValue(g.first)))
            && ((forall j, k | 0 <= j <= |row[3]| :: !GroupsAt(ExecDateMarker, row[3], j, k)) ==>
                  |row[0]| == 10 && l.dateUser.date == ShapedFields(row[0]))
  {
    var row1 := RewrittenRow(ExecDateMarker, row);
    RewrittenRowKeeps(ExecDateMarker, row);
    SkLineFields(floatOf, intended, row1);
    RewrittenLeadDate(ExecDateMarker, row[0], row[3]);
  }

  // ---------------------------------------------------------------------
  // A run over the rows of a file

  /** One step of a run: the first row's call succeeds, the rest of the
      run succeeds from the state it leaves, and the first row's line
      comes first. */
  lemma SkRunStep(floatOf: string -> Option<real>, intended: bool, h: SkHeader, last: string, rows: seq<seq<string>>)
    requires |rows| > 0 && SkRunOf(floatOf, intended, h, last, rows).Ok?
    ensures SkRecord(floatOf, intended, h, last, rows[0]).Ok?
    ensures var o := SkRecord(floatOf, intended, h, last, rows[0]).value;
            var rest := SkRunOf(floatOf, intended, o.header, o.lastLine, rows[1..]);
            && rest.Ok?
            && SkRunOf(floatOf, intended, h, last, rows).value
               == rest.value.(lines := (if o.line.Some? then [o.line.value] else []) + rest.value.lines)
  {
  }

  /** First truthy value wins: over a whole file, a currency, BIC or account
      number once set to a non-empty text is never overwritten. */
  lemma {:induction false} SkRunKeeps(floatOf: string -> Option<real>, intended: bool, h: SkHeader, last: string, rows: seq<seq<string>>)
    requires SkRunOf(floatOf, intended, h, last, rows).Ok?
    ensures var h1 := SkRunOf(floatOf, intended, h, last, rows).value.header;
            && (TruthyText(h.currency) ==> h1.currency == h.currency)
            && (TruthyText(h.bankId) ==> h1.bankId == h.bankId)
            && (TruthyText(h.accountId) ==> h1.accountId == h.accountId)
    decreases |rows|
  {
    if |rows| > 0 {
      SkRunStep(floatOf, intended, h, last, rows);
      var o := SkRecord(floatOf, intended, h, last, rows[0]).value;
      SkRecordSteps(floatOf, intended, h, last, rows[0]);
      SkHeaderStepFields(h, last, rows[0][0]);
      SkRunKeeps(floatOf, intended, o.header, o.lastLine, rows[1..]);
    }
  }

  /** A run yields one statement line per transaction row. */
  lemma {:induction false} SkRunCount(floatOf: string -> Option<real>, intended: bool, h: SkHeader, last: string, rows: seq<seq<string>>)
    requires SkRunOf(floatOf, intended, h, last, rows).Ok?
    ensures |SkRunOf(floatOf, intended, h, last, rows).value.lines| == TransactionCount(rows)
    decreases |rows|
  {
    if |rows| > 0 {
      SkRunStep(floatOf, intended, h, last, rows);
      var o := SkRecord(floatOf, intended, h, last, rows[0]).value;
      SkRecordSteps(floatOf, intended, h, last, rows[0]);
      SkRunCount(floatOf, intended, o.header, o.lastLine, rows[1..]);
    }
  }

  /** A run that succeeds had no empty row. */
  lemma {:induction false} SkRunNoEmptyRow(floatOf: string -> Option<real>, intended: bool, h: SkHeader, last: string, rows: seq<seq<string>>)
    requires SkRunOf(floatOf, intended, h, last, rows).Ok?
    ensures NoEmptyRow(rows)
    decreases |rows|
  {
    if |rows| > 0 {
      SkRunStep(floatOf, intended, h, last, rows);
      var o := SkRecord(floatOf, intended, h, last, rows[0]).value;
      SkRecordSteps(floatOf, intended, h, last, rows[0]);
      SkRunNoEmptyRow(floatOf, intended, o.header, o.lastLine, rows[1..]);
      NoEmptyRowCons(rows);
    }
  }

  /** A run leaves `last_line` as feeding the rows' lead fields one by one
      does. */
  lemma {:induction false} SkRunLastLead(floatOf: string -> Option<real>, intended: bool, h: SkHeader, last: string, rows: seq<seq<string>>)
    requires SkRunOf(floatOf, intended, h, last, rows).Ok?
    ensures SkRunOf(floatOf, intended, h, last, rows).value.lastLine == LastLead(last, rows)
    decreases |rows|
  {
    if |rows| > 0 {
      SkRunStep(floatOf, intended, h, last, rows);
      var o := SkRecord(floatOf, intended, h, last, rows[0]).value;
      SkRecordSteps(floatOf, intended, h, last, rows[0]);
      SkRunLastLead(floatOf, intended, o.header, o.lastLine, rows[1..]);
    }
  }

  /** After a run, `last_line` is the last row's lead field. */
  lemma SkRunLast(floatOf: string -> Option<real>, intended: bool, h: SkHeader, last: string, rows: seq<seq<string>>)
    requires SkRunOf(floatOf, intended, h, last, rows).Ok?
    ensures SkRunOf(floatOf, intended, h, last, rows).value.lastLine == if |rows| == 0 then last else Lead(rows[|rows| - 1])
  {
    SkRunLastLead(floatOf, intended, h, last, rows);
    LastLeadSpec(last, rows);
  }

  /** As intended, every line carries one of the three types; as written,
      none carries a type. */
  predicate TypedAs(lines: seq<SkLine>, intended: bool) {
    forall i | 0 <= i < |lines| ::
      if intended then lines[i].trntype.Some? && lines[i].trntype.value in {"PAYMENT", "ATM", "XFER"}
      else lines[i].trntype.None?
  }

  /** Typed lines in front of typed lines. */
  lemma TypedAsCons(head: seq<SkLine>, rest: seq<SkLine>, intended: bool)
    requires TypedAs(head, intended) && TypedAs(rest, intended)
    ensures TypedAs(head + rest, intended)
  {
    forall i | 0 <= i < |head + rest|
      ensures if intended then (head + rest)[i].trntype.Some? && (head + rest)[i].trntype.value in {"PAYMENT", "ATM", "XFER"}
              else (head + rest)[i].trntype.None?
    {
      if i >= |head| {
        assert (head + rest)[i] == rest[i - |head|];
      }
    }
  }

  /** A line built from a transaction row is typed as intended, and left
      untyped as written. */
  lemma SkLineTyped(floatOf: string -> Option<real>, intended: bool, row: seq<string>)
    requires |row| > 10 && SkLineOf(floatOf, intended, row).Ok?
    ensures TypedAs([SkLineOf(floatOf, intended, row).value], intended)
  {
    SkLineFields(floatOf, intended, row);
    SkTrnTypeCases(row[2]);
  }

  /** The line of one successful call, if any, is typed as intended, and
      left untyped as written. */
  lemma SkRecordTyped(floatOf: string -> Option<real>, intended: bool, h: SkHeader, last: string, row: seq<string>)
    requires SkRecord(floatOf, intended, h, last, row).Ok?
    ensures var o := SkRecord(floatOf, intended, h, last, row).value;
            TypedAs(if o.line.Some? then [o.line.value] else [], intended)
  {
    SkRecordSteps(floatOf, intended, h, last, row);
    var o := SkRecord(floatOf, intended, h, last, row).value;
    if o.line.Some? {
      SkLineTyped(floatOf, intended, RewrittenRow(ExecDateMarker, row));
    }
  }

  /** Over a whole file: as written, no statement line of a run carries a
      type; as intended, every one carries one of the three types. */
  lemma {:induction false} SkRunTyped(floatOf: string -> Option<real>, intended: bool, h: SkHeader, last: string, rows: seq<seq<string>>)
    requires SkRunOf(floatOf, intended, h, last, rows).Ok?
    ensures TypedAs(SkRunOf(floatOf, intended, h, last, rows).value.lines, intended)
    decreases |rows|
  {
    if |rows| > 0 {
      SkRunStep(floatOf, intended, h, last, rows);
      var o := SkRecord(floatOf, intended, h, last, rows[0]).value;
      SkRecordTyped(floatOf, intended, h, last, rows[0]);
      SkRunTyped(floatOf, intended, o.header, o.lastLine, rows[1..]);
      TypedAsCons(if o.line.Some? then [o.line.value] else [],
                  SkRunOf(floatOf, intended, o.header, o.lastLine, rows[1..]).value.lines, intended);
    }
  }
}
