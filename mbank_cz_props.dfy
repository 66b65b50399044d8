/** Properties of the Czech parser model: the identifier, the
    classification table and classifier, the reference and payee rules, one
    call of `parse_record`, and a whole statement fed row by row. */
module MBankCZProps {
  import opened Wrappers
  import opened PyText
  import opened PyDate
  import opened StatementRows
  import opened MBankCZ
  import Base64

  // ---------------------------------------------------------------------
  // Identifier

  /** ASCII encoding commutes with taking a prefix. */
  lemma AsciiBytesPrefix(h: HexDigest, n: nat)
    requires n <= 32
    ensures AsciiBytes(h)[..n] == AsciiBytes(h[..n])
  {
  }

  /** The identifier has 18 characters, all from the base64 alphabet, and
      its first 16 decode to the ASCII bytes of the digest's first 12 hex
      digits. */
  lemma HashShape(h: HexDigest)
    ensures var r := CalculateHash(h);
            && |r| == 18
            && (forall i | 0 <= i < |r| :: Base64.IsBase64Char(r[i]))
            && Base64.WellFormed(r[..16])
            && Base64.Decode(r[..16]) == AsciiBytes(h[..12])
  {
    var b := AsciiBytes(h);
    var r := CalculateHash(h);
    Base64.EncodeLength(b);
    Base64.EncodePrefix(b, 6);
    Base64.EncodePrefix(b, 4);
    assert r[..16] == Base64.Encode(b)[..16];
    Base64.DecodeEncode(b[..12]);
    AsciiBytesPrefix(h, 12);
    forall i | 0 <= i < |r| ensures Base64.IsBase64Char(r[i]) {
      assert r[i] == Base64.Encode(b)[i];
    }
  }

  /** Equal identifiers come from digests that agree on their first 13 hex
      digits: the first 16 characters carry 12 of them, and characters 16
      and 17 carry the 13th. */
  lemma HashKeepsDigestPrefix(h1: HexDigest, h2: HexDigest)
    requires CalculateHash(h1) == CalculateHash(h2)
    ensures h1[..13] == h2[..13]
  {
    HashShape(h1);
    HashShape(h2);
    var a, b := AsciiBytes(h1[..12]), AsciiBytes(h2[..12]);
    assert a == b;
    forall i | 0 <= i < 12 ensures h1[i] == h2[i] {
      assert a[i] == h1[i] as int && b[i] == h2[i] as int;
    }
    HashDigit12(h1, h2);
  }

  /** Characters 16 and 17 of the identifier fix the digest's 13th hex
      digit. */
  lemma HashDigit12(h1: HexDigest, h2: HexDigest)
    requires CalculateHash(h1) == CalculateHash(h2)
    ensures h1[12] == h2[12]
  {
    var b1, b2 := AsciiBytes(h1), AsciiBytes(h2);
    Base64.EncodeGroupAt(b1, 4);
    Base64.EncodeGroupAt(b2, 4);
    var e1, e2 := Base64.Encode(b1), Base64.Encode(b2);
    assert e1[16..18] == CalculateHash(h1)[16..18];
    assert e2[16..18] == CalculateHash(h2)[16..18];
    assert Base64.EncodeGroup(b1[12], b1[13], b1[14])[..2] == e1[16..18];
    assert Base64.EncodeGroup(b2[12], b2[13], b2[14])[..2] == e2[16..18];
    Base64.GroupLead(b1[12], b1[13], b1[14], b2[12], b2[13], b2[14]);
  }

  // ---------------------------------------------------------------------
  // Classification table

  /** No key occurs twice. */
  predicate DistinctKeys(table: seq<Entry>) {
    forall i, j | 0 <= i < j < |table| :: table[i].key != table[j].key
  }

  /** `a` occurs in `types` before the first occurrence of `b`. */
  predicate OccursBefore(types: seq<string>, a: string, b: string) {
    exists p | 0 <= p < |types| :: types[p] == a && b !in types[..p]
  }

  /** Assigning a new key appends it. */
  lemma {:induction false} AssignNew(table: seq<Entry>, k: string, v: seq<string>)
    requires !HasKey(table, k)
    ensures Assign(table, k, v) == table + [Entry(k, v)]
  {
    if |table| > 0 {
      assert table[0].key != k;
      AssignNew(table[1..], k, v);
      assert table == [table[0]] + table[1..];
    }
  }

  /** Assigning a key the value it already has changes nothing. */
  lemma {:induction false} AssignSame(table: seq<Entry>, i: nat, v: seq<string>)
    requires i < |table| && table[i].markers == v
    requires forall j | 0 <= j < i :: table[j].key != table[i].key
    ensures Assign(table, table[i].key, v) == table
  {
    if i > 0 {
      AssignSame(table[1..], i - 1, v);
      assert table == [table[0]] + table[1..];
    } else {
      assert table == [table[0]] + table[1..];
    }
  }

  /** Appending an entry with a new key. */
  lemma AppendEntry(t: seq<Entry>, x: string, ms: seq<string>)
    requires DistinctKeys(t) && !HasKey(t, x)
    ensures DistinctKeys(t + [Entry(x, ms)])
    ensures forall k :: HasKey(t + [Entry(x, ms)], k) <==> HasKey(t, k) || k == x
  {
    var t1 := t + [Entry(x, ms)];
    forall k ensures HasKey(t1, k) <==> HasKey(t, k) || k == x {
      if HasKey(t, k) {
        var i :| 0 <= i < |t| && t[i].key == k;
        assert t1[i].key == k;
      }
      if HasKey(t1, k) && k != x {
        var i :| 0 <= i < |t1| && t1[i].key == k;
        assert t[i].key == k;
      }
      if k == x {
        assert t1[|t|].key == k;
      }
    }
    forall i, j | 0 <= i < j < |t1| ensures t1[i].key != t1[j].key {
      if j == |t| {
        assert t[i].key == t1[i].key;
      }
    }
  }

  /** The dict built from `types` holds exactly the recognised types of
      `types`, each once, with its patterns. */
  lemma {:induction false} PaymentTableSpec(types: seq<string>)
    ensures var t := PaymentTable(types);
            && DistinctKeys(t)
            && (forall i | 0 <= i < |t| :: Markers(t[i].key) == Some(t[i].markers))
            && (forall k :: HasKey(t, k) <==> k in types && Markers(k).Some?)
    decreases |types|
  {
    if |types| > 0 {
      var n := |types| - 1;
      var x := types[n];
      var init := types[..n];
      PaymentTableSpec(init);
      var t0 := PaymentTable(init);
      assert types == init + [x];
      assert forall k :: k in types <==> k in init || k == x;
      match Markers(x) {
        case None =>
        case Some(ms) =>
          if HasKey(t0, x) {
            var i :| 0 <= i < |t0| && t0[i].key == x;
            AssignSame(t0, i, ms);
          } else {
            AssignNew(t0, x, ms);
            AppendEntry(t0, x, ms);
          }
      }
    }
  }

  /** Occurring before survives appending to the list. */
  lemma OccursBeforeAppend(init: seq<string>, x: string, a: string, b: string)
    requires OccursBefore(init, a, b)
    ensures OccursBefore(init + [x], a, b)
  {
    var p :| 0 <= p < |init| && init[p] == a && b !in init[..p];
    assert (init + [x])[..p] == init[..p];
    assert (init + [x])[p] == a;
  }

  /** The dict's keys come in the order of their first occurrence in
      `types`. */
  lemma {:induction false} PaymentTableOrder(types: seq<string>)
    ensures var t := PaymentTable(types);
            forall i, j | 0 <= i < j < |t| :: OccursBefore(types, t[i].key, t[j].key)
    decreases |types|
  {
    if |types| > 0 {
      var n := |types| - 1;
      var x := types[n];
      var init := types[..n];
      PaymentTableOrder(init);
      PaymentTableSpec(init);
      var t0 := PaymentTable(init);
      assert types == init + [x];
      var t := PaymentTable(types);
      match Markers(x) {
        case None =>
          forall i, j | 0 <= i < j < |t| ensures OccursBefore(types, t[i].key, t[j].key) {
            OccursBeforeAppend(init, x, t[i].key, t[j].key);
          }
        case Some(ms) =>
          if HasKey(t0, x) {
            var i :| 0 <= i < |t0| && t0[i].key == x;
            AssignSame(t0, i, ms);
            forall i, j | 0 <= i < j < |t| ensures OccursBefore(types, t[i].key, t[j].key) {
              OccursBeforeAppend(init, x, t[i].key, t[j].key);
            }
          } else {
            AssignNew(t0, x, ms);
            assert x !in init;
            forall i, j | 0 <= i < j < |t| ensures OccursBefore(types, t[i].key, t[j].key) {
              if j == |t0| {
                assert t[i] == t0[i];
                assert HasKey(t0, t0[i].key);
                var p :| 0 <= p < |init| && init[p] == t0[i].key;
                assert types[p] == t[i].key;
                assert types[..p] == init[..p];
              } else {
                OccursBeforeAppend(init, x, t[i].key, t[j].key);
              }
            }
          }
      }
    }
  }

  /** One more type at the end of the list is one more assignment. */
  lemma PaymentTableSnoc(types: seq<string>, x: string)
    ensures PaymentTable(types + [x]) == match Markers(x)
                                         case Some(ms) => Assign(PaymentTable(types), x, ms)
                                         case None => PaymentTable(types)
  {
    assert (types + [x])[..|types|] == types;
  }

  /** The dict the parser builds from the OFX transaction types. */
  const OfxTable: seq<Entry> :=
    [ Entry("CREDIT", ["P..CHOZ. PLATBA Z"]),
      Entry("DEBIT", ["ODCHOZ. PLATBA DO", ".V.R"]),
      Entry("ATM", ["BANKOMAT"]),
      Entry("PAYMENT", ["KARTOU"]),
      Entry("DIRECTDEBIT", ["INKASO", "SIPO"]) ]

  /** Types the dict has no patterns for add nothing. */
  lemma {:induction false} PaymentTableSkip(types: seq<string>, rest: seq<string>)
    requires forall i | 0 <= i < |rest| :: Markers(rest[i]).None?
    ensures PaymentTable(types + rest) == PaymentTable(types)
    decreases |rest|
  {
    if |rest| > 0 {
      var n := |rest| - 1;
      PaymentTableSkip(types, rest[..n]);
      assert types + rest == (types + rest[..n]) + [rest[n]];
      PaymentTableSnoc(types + rest[..n], rest[n]);
    } else {
      assert types + rest == types;
    }
  }

  /** A recognised type not yet in the dict goes last. */
  lemma PaymentTableAdd(types: seq<string>, x: string)
    requires Markers(x).Some? && !HasKey(PaymentTable(types), x)
    ensures PaymentTable(types + [x]) == PaymentTable(types) + [Entry(x, Markers(x).value)]
  {
    PaymentTableSnoc(types, x);
    AssignNew(PaymentTable(types), x, Markers(x).value);
  }

  /** CREDIT and DEBIT give the first two entries. */
  lemma OfxPaymentTableTwo()
    ensures PaymentTable(["CREDIT", "DEBIT"]) == OfxTable[..2]
  {
    PaymentTableAdd([], "CREDIT");
    assert [] + ["CREDIT"] == ["CREDIT"];
    PaymentTableAdd(["CREDIT"], "DEBIT");
    assert ["CREDIT"] + ["DEBIT"] == ["CREDIT", "DEBIT"];
  }

  /** The first eight OFX types give the first three entries. */
  lemma OfxPaymentTablePrefix()
    ensures PaymentTable(TransactionTypes[..8]) == OfxTable[..3]
  {
    var s2 := ["CREDIT", "DEBIT"];
    var s3 := s2 + ["INT", "DIV", "FEE", "SRVCHG", "DEP"];
    OfxPaymentTableTwo();
    PaymentTableSkip(s2, ["INT", "DIV", "FEE", "SRVCHG", "DEP"]);
    PaymentTableAdd(s3, "ATM");
    assert s3 + ["ATM"] == TransactionTypes[..8];
  }

  /** `createPaymentTypes(TRANSACTION_TYPES)` is the five-entry dict, in the
      order CREDIT, DEBIT, ATM, PAYMENT, DIRECTDEBIT. */
  lemma OfxPaymentTable()
    ensures PaymentTable(TransactionTypes) == OfxTable
  {
    var s4 := TransactionTypes[..8];
    OfxPaymentTablePrefix();
    var s5 := s4 + ["POS", "XFER", "CHECK"];
    var s6 := s5 + ["PAYMENT"];
    var s7 := s6 + ["CASH", "DIRECTDEP"];
    var s8 := s7 + ["DIRECTDEBIT"];
    PaymentTableSkip(s4, ["POS", "XFER", "CHECK"]);
    PaymentTableAdd(s5, "PAYMENT");
    PaymentTableSkip(s6, ["CASH", "DIRECTDEP"]);
    PaymentTableAdd(s7, "DIRECTDEBIT");
    PaymentTableSkip(s8, ["REPEATPMT", "OTHER"]);
    assert s8 + ["REPEATPMT", "OTHER"] == TransactionTypes;
  }

  // ---------------------------------------------------------------------
  // Classifier

  /** The first entry whose patterns fit gives the type. */
  lemma {:induction false} TrnTypeFirst(table: seq<Entry>, desc: string, i: nat)
    requires i < |table| && AnyFits(table[i].markers, desc)
    requires forall j | 0 <= j < i :: !AnyFits(table[j].markers, desc)
    ensures TrnType(table, desc) == table[i].key
  {
    if i > 0 {
      TrnTypeFirst(table[1..], desc, i - 1);
    }
  }

  /** With no entry fitting, the type is "OTHER". */
  lemma {:induction false} TrnTypeOther(table: seq<Entry>, desc: string)
    requires forall j | 0 <= j < |table| :: !AnyFits(table[j].markers, desc)
    ensures TrnType(table, desc) == "OTHER"
  {
    if |table| > 0 {
      TrnTypeOther(table[1..], desc);
    }
  }

  /** The type is always "OTHER" or the key of the first entry that fits. */
  lemma {:induction false} TrnTypeCases(table: seq<Entry>, desc: string)
    ensures || (TrnType(table, desc) == "OTHER" && forall j | 0 <= j < |table| :: !AnyFits(table[j].markers, desc))
            || exists i | 0 <= i < |table| ::
                 && TrnType(table, desc) == table[i].key && AnyFits(table[i].markers, desc)
                 && forall j | 0 <= j < i :: !AnyFits(table[j].markers, desc)
  {
    if |table| > 0 && !AnyFits(table[0].markers, desc) {
      TrnTypeCases(table[1..], desc);
      if TrnType(table, desc) != "OTHER" || exists j | 0 <= j < |table| :: AnyFits(table[j].markers, desc) {
        var i :| 0 <= i < |table[1..]| && TrnType(table[1..], desc) == table[1..][i].key
                 && AnyFits(table[1..][i].markers, desc)
                 && forall j | 0 <= j < i :: !AnyFits(table[1..][j].markers, desc);
        assert forall j | 0 <= j < i + 1 :: !AnyFits(table[j].markers, desc) by {
          forall j | 0 <= j < i + 1 ensures !AnyFits(table[j].markers, desc) {
            if j > 0 {
              assert table[j] == table[1..][j - 1];
            }
          }
        }
      }
    }
  }

  // ---------------------------------------------------------------------
  // Reference

  /** The reference is empty exactly when all three symbols are. */
  lemma RefNumEmpty(vs: string, ss: string, ks: string)
    ensures RefNum(vs, ss, ks) == "" <==> vs == "" && ss == "" && ks == ""
  {
    assert |RefNum(vs, ss, ks)| == |Segment("/VS", vs)| + |Segment("/SS", ss)| + |Segment("/KS", ks)|;
  }

  /** A tagged field at the front of `s`, and what follows it. */
  function TakeTagged(tag: string, s: string): (string, string) {
    if |tag| <= |s| && s[..|tag|] == tag then
      var v := FirstSegment(s[|tag|..], '/');
      (v, s[|tag| + |v|..])
    else ("", s)
  }

  /** Reading the three symbols back out of a reference. */
  function DecodeRefNum(r: string): (string, string, string) {
    var (vs, r1) := TakeTagged("/VS", r);
    var (ss, r2) := TakeTagged("/SS", r1);
    var (ks, _) := TakeTagged("/KS", r2);
    (vs, ss, ks)
  }

  /** Splitting at a separator finds the text before it, or all of it. */
  lemma {:induction false} FirstSegmentUpTo(w: string, rest: string, sep: char)
    requires sep !in w
    requires rest == [] || rest[0] == sep
    ensures FirstSegment(w + rest, sep) == w
  {
    if |w| > 0 {
      assert (w + rest)[1..] == w[1..] + rest;
      FirstSegmentUpTo(w[1..], rest, sep);
    } else {
      assert w + rest == rest;
    }
  }

  /** A non-empty field behind its tag is read back, up to the next slash. */
  lemma TakeTaggedSegment(tag: string, field: string, rest: string)
    requires |field| > 0 && '/' !in field
    requires rest == [] || rest[0] == '/'
    ensures TakeTagged(tag, Segment(tag, field) + rest) == (field, rest)
  {
    var s := tag + field + rest;
    assert s[..|tag|] == tag;
    assert s[|tag|..] == field + rest;
    FirstSegmentUpTo(field, rest, '/');
    assert s[|tag| + |field|..] == rest;
  }

  /** A reference decodes back to its three symbols when none of them holds
      a slash: the reference loses nothing. */
  lemma DecodeRefNumRoundTrip(vs: string, ss: string, ks: string)
    requires '/' !in vs && '/' !in ss && '/' !in ks
    ensures DecodeRefNum(RefNum(vs, ss, ks)) == (vs, ss, ks)
  {
    var a, b, c := Segment("/VS", vs), Segment("/SS", ss), Segment("/KS", ks);
    var r := RefNum(vs, ss, ks);
    assert r == a + (b + c);
    if |vs| > 0 {
      TakeTaggedSegment("/VS", vs, b + c);
    } else {
      assert r == b + c;
      assert b + c == [] || (b + c)[..3] != "/VS" by {
        if |b| > 0 { assert (b + c)[..3] == "/SS"; }
        else if |c| > 0 { assert (b + c)[..3] == "/KS"; }
      }
    }
    assert TakeTagged("/VS", r) == (vs, b + c);
    if |ss| > 0 {
      TakeTaggedSegment("/SS", ss, c);
    } else {
      assert b + c == c;
      assert c == [] || c[..3] != "/SS" by {
        if |c| > 0 { assert c[..3] == "/KS"; }
      }
    }
    assert TakeTagged("/SS", b + c) == (ss, c);
    if |ks| > 0 {
      TakeTaggedSegment("/KS", ks, []);
      assert c + [] == c;
    }
    assert TakeTagged("/KS", c).0 == ks;
  }

  // ---------------------------------------------------------------------
  // Payee

  /** The payee of a card payment is the memo's text before its first slash
      with the whitespace at both ends removed. */
  lemma PaymentPayeeSpec(memo: string)
    ensures var seg := FirstSegment(memo, '/');
            var r := PaymentPayee(memo);
            var i := StripStart(seg);
            && memo[..|seg|] == seg && '/' !in seg
            && (|seg| == |memo| || memo[|seg|] == '/')
            && i + |r| <= |seg| && seg[i..i + |r|] == r
            && (forall k | 0 <= k < i :: IsSpace(seg[k]))
            && (forall k | i + |r| <= k < |seg| :: IsSpace(seg[k]))
            && (|r| > 0 ==> !IsSpace(r[0]) && !IsSpace(r[|r| - 1]))
  {
    StripSpec(FirstSegment(memo, '/'));
  }

  // ---------------------------------------------------------------------
  // One call of `parse_record`

  /** A successful call splits into the header step and, for a transaction
      row, the line built from the rewritten row. */
  lemma CzRecordSteps(env: Env, table: seq<Entry>, h: Header, last: string, row: seq<string>)
    requires CzRecord(env, table, h, last, row).Ok?
    ensures var o := CzRecord(env, table, h, last, row).value;
            && |row| > 0
            && CzHeaderStep(env, h, last, row) == Ok(o.header)
            && o.lastLine == row[0]
            && (o.line.Some? <==> IsTransactionRow(row))
            && o.row == (if IsTransactionRow(row) then RewrittenRow(ExecDateMarker, row) else row)
            && (o.line.Some? ==> CzLineOf(env, table, o.header.currency, RewrittenRow(ExecDateMarker, row)) == Ok(o.line.value))
  {
  }

  /** The header step's effect on the three text fields: each is taken
      from the lead field only while falsy and only after a row whose lead
      field carries its pattern. */
  lemma HeaderStepText(env: Env, h: Header, last: string, row: seq<string>)
    requires |row| > 0 && CzHeaderStep(env, h, last, row).Ok?
    ensures var h1 := CzHeaderStep(env, h, last, row).value;
            && h1.currency == (if !TruthyText(h.currency) && StartsWithPattern(CurrencyMarker, last) then Some(row[0]) else h.currency)
            && h1.bankId == (if !TruthyText(h.bankId) && StartsWithPattern(BicMarker, last) then Some(row[0]) else h.bankId)
            && h1.accountId == (if !TruthyText(h.accountId) && StartsWithPattern(AccountMarker, last) then Some(row[0]) else h.accountId)
  {
    var h3 := TextFieldsStep(h, last, row[0]);
    var h4 := PeriodStep(h3, last, row).value;
    assert h4.currency == h3.currency && h4.bankId == h3.bankId && h4.accountId == h3.accountId;
  }

  /** The header step never overwrites a period once set, nor a truthy
      balance. */
  lemma HeaderStepKeeps(env: Env, h: Header, last: string, row: seq<string>)
    requires |row| > 0 && CzHeaderStep(env, h, last, row).Ok?
    ensures var h1 := CzHeaderStep(env, h, last, row).value;
            && (h.startDate.Some? ==> h1.startDate == h.startDate && h1.endDate == h.endDate)
            && (TruthyNumber(h.startBalance) ==> h1.startBalance == h.startBalance)
            && (TruthyNumber(h.endBalance) ==> h1.endBalance == h.endBalance)
  {
    var h3 := TextFieldsStep(h, last, row[0]);
    var h4 := PeriodStep(h3, last, row).value;
    assert h4.startBalance == h.startBalance && h4.endBalance == h.endBalance;
  }

  /** The statement period of a "#Za obdob." row: from the first field's
      day at midnight to the second field's day at 23:59:59, at UTC+01:00. */
  lemma HeaderStepPeriod(env: Env, h: Header, last: string, row: seq<string>)
    requires |row| > 0 && CzHeaderStep(env, h, last, row).Ok?
    requires h.startDate.None? && StartsWithPattern(PeriodMarker, last)
    ensures var h1 := CzHeaderStep(env, h, last, row).value;
            && |row| > 1
            && StrpDate(row[0], '.').Some? && StrpDate(row[1], '.').Some?
            && h1.startDate == Some(Stamp(StrpDate(row[0], '.').value, false, true))
            && h1.endDate == Some(Stamp(StrpDate(row[1], '.').value, true, true))
  {
    var h3 := TextFieldsStep(h, last, row[0]);
    assert PeriodStep(h3, last, row).Ok?;
  }

  /** A row that is neither a period row nor a balance row never makes the
      header step fail, and only the text fields change. */
  lemma HeaderStepQuiet(env: Env, h: Header, last: string, row: seq<string>)
    requires |row| > 0
    requires !(h.startDate.None? && StartsWithPattern(PeriodMarker, last))
    requires |row| > 6 ==> !StartsWithPattern(OpeningMarker, row[6]) && !StartsWithPattern(ClosingMarker, row[6])
    ensures CzHeaderStep(env, h, last, row) == Ok(TextFieldsStep(h, last, row[0]))
  {
    var h3 := TextFieldsStep(h, last, row[0]);
    assert PeriodStep(h3, last, row) == Ok(h3);
    assert BalanceStep(env, h3, row) == Ok(h3);
  }

  /** The fields of the statement line built from a (rewritten) transaction
      row. */
  lemma LineOfFields(env: Env, table: seq<Entry>, currency: Option<string>, row: seq<string>)
    requires |row| > 10 && CzLineOf(env, table, currency, row).Ok?
    ensures var l := CzLineOf(env, table, currency, row).value;
            && l.currency == currency
            && l.refnum == RefNum(row[7], row[8], row[6])
            && l.bankAccountTo == CounterAccount(row[5])
            && l.trntype == TrnType(table, row[2])
            && l.payee == (if l.trntype == "PAYMENT" then PaymentPayee(row[3]) else row[4])
            && l.memo == row[3]
            && ParseFloat(env.floatOf, row[9]) == Some(l.amount)
            && StrpDate(row[0], '-') == Some(l.dateUser.date)
            && StrpDate(row[1], '-') == Some(l.date.date)
            && l.date.utcPlusOne && !l.date.endOfDay && l.dateUser.utcPlusOne && !l.dateUser.endOfDay
  {
  }

  /** The line's identifier is the 18-character prefix of the base64 text
      of the digest of the line as it was before the identifier was set. */
  lemma LineOfId(env: Env, table: seq<Entry>, currency: Option<string>, row: seq<string>)
    requires |row| > 10 && CzLineOf(env, table, currency, row).Ok?
    ensures var l := CzLineOf(env, table, currency, row).value;
            && l.id == Some(CalculateHash(env.digest(env.render(l.(id := None)))))
            && |l.id.value| == 18
            && forall i | 0 <= i < 18 :: Base64.IsBase64Char(l.id.value[i])
  {
    var l := CzLineOf(env, table, currency, row).value;
    HashShape(env.digest(env.render(l.(id := None))));
  }

  /** Where `CzLineOf` fails: the date, then the amount, then the user
      date, each with the text that could not be read. */
  lemma LineOfErrors(env: Env, table: seq<Entry>, currency: Option<string>, row: seq<string>)
    requires |row| > 10
    ensures var r := CzLineOf(env, table, currency, row);
            && (StrpDate(row[1], '-').None? ==> r == Err(BadDate(row[1])))
            && (StrpDate(row[1], '-').Some? && ParseFloat(env.floatOf, row[9]).None? ==> r == Err(BadNumber(AmountText(row[9]))))
            && (StrpDate(row[1], '-').Some? && ParseFloat(env.floatOf, row[9]).Some? && StrpDate(row[0], '-').None? ==> r == Err(BadDate(row[0])))
            && (r.Err? <==> StrpDate(row[1], '-').None? || ParseFloat(env.floatOf, row[9]).None? || StrpDate(row[0], '-').None?)
  {
  }

  /** The user date of a transaction line is the execution date quoted in
      the memo (its leftmost occurrence, day, month and year taken from the
      reversed groups) when there is one, and the row's own first date
      otherwise. */
  lemma LineOfUserDate(env: Env, table: seq<Entry>, currency: Option<string>, row: seq<string>)
    requires IsTransactionRow(row)
    requires CzLineOf(env, table, currency, RewrittenRow(ExecDateMarker, row)).Ok?
    ensures var l := CzLineOf(env, table, currency, RewrittenRow(ExecDateMarker, row)).value;
            && (forall p: nat, g | p <= |row[3]| && GroupsAt(ExecDateMarker, row[3], p, g)
                  && (forall j, k | 0 <= j < p :: !GroupsAt(ExecDateMarker, row[3], j, k)) ::
                  l.dateUser.date == CivilDate(DigitValue(g.third), DigitValue(g.second), DigitValue(g.first)))
            && ((forall j, k | 0 <= j <= |row[3]| :: !GroupsAt(ExecDateMarker, row[3], j, k)) ==>
                  |row[0]| == 10 && l.dateUser.date == ShapedFields(row[0]))
  {
    var row1 := RewrittenRow(ExecDateMarker, row);
    RewrittenRowKeeps(ExecDateMarker, row);
    LineOfFields(env, table, currency, row1);
    RewrittenLeadDate(ExecDateMarker, row[0], row[3]);
  }

  // ---------------------------------------------------------------------
  // A run over the rows of a file

  /** One call keeps every header value the run promises to keep. */
  lemma CzRecordKeeps(env: Env, table: seq<Entry>, h: Header, last: string, row: seq<string>)
    requires CzRecord(env, table, h, last, row).Ok?
    ensures var h1 := CzRecord(env, table, h, last, row).value.header;
            && (TruthyText(h.currency) ==> h1.currency == h.currency)
            && (TruthyText(h.bankId) ==> h1.bankId == h.bankId)
            && (TruthyText(h.accountId) ==> h1.accountId == h.accountId)
            && (h.startDate.Some? ==> h1.startDate == h.startDate && h1.endDate == h.endDate)
            && (TruthyNumber(h.startBalance) ==> h1.startBalance == h.startBalance)
            && (TruthyNumber(h.endBalance) ==> h1.endBalance == h.endBalance)
  {
    CzRecordSteps(env, table, h, last, row);
    HeaderStepText(env, h, last, row);
    HeaderStepKeeps(env, h, last, row);
  }

  /** One step of a run: the first row's call succeeds, the rest of the
      run succeeds from the state it leaves, and the first row's line
      comes first. */
  lemma CzRunStep(env: Env, table: seq<Entry>, h: Header, last: string, rows: seq<seq<string>>)
    requires |rows| > 0 && CzRunOf(env, table, h, last, rows).Ok?
    ensures CzRecord(env, table, h, last, rows[0]).Ok?
    ensures var o := CzRecord(env, table, h, last, rows[0]).value;
            var rest := CzRunOf(env, table, o.header, o.lastLine, rows[1..]);
            && rest.Ok?
            && CzRunOf(env, table, h, last, rows).value
               == rest.value.(lines := (if o.line.Some? then [o.line.value] else []) + rest.value.lines)
  {
  }

  /** First truthy value wins: over a whole file, a currency, BIC or account
      number once set to a non-empty text, a period once set and a nonzero
      balance are never overwritten by later rows. */
  lemma {:induction false} CzRunKeeps(env: Env, table: seq<Entry>, h: Header, last: string, rows: seq<seq<string>>)
    requires CzRunOf(env, table, h, last, rows).Ok?
    ensures var h1 := CzRunOf(env, table, h, last, rows).value.header;
            && (TruthyText(h.currency) ==> h1.currency == h.currency)
            && (TruthyText(h.bankId) ==> h1.bankId == h.bankId)
            && (TruthyText(h.accountId) ==> h1.accountId == h.accountId)
            && (h.startDate.Some? ==> h1.startDate == h.startDate && h1.endDate == h.endDate)
            && (TruthyNumber(h.startBalance) ==> h1.startBalance == h.startBalance)
            && (TruthyNumber(h.endBalance) ==> h1.endBalance == h.endBalance)
    decreases |rows|
  {
    if |rows| > 0 {
      CzRunStep(env, table, h, last, rows);
      var o := CzRecord(env, table, h, last, rows[0]).value;
      CzRecordKeeps(env, table, h, last, rows[0]);
      CzRunKeeps(env, table, o.header, o.lastLine, rows[1..]);
    }
  }

  /** A run yields one statement line per transaction row. */
  lemma {:induction false} CzRunCount(env: Env, table: seq<Entry>, h: Header, last: string, rows: seq<seq<string>>)
    requires CzRunOf(env, table, h, last, rows).Ok?
    ensures |CzRunOf(env, table, h, last, rows).value.lines| == TransactionCount(rows)
    decreases |rows|
  {
    if |rows| > 0 {
      CzRunStep(env, table, h, last, rows);
      var o := CzRecord(env, table, h, last, rows[0]).value;
      CzRecordSteps(env, table, h, last, rows[0]);
      CzRunCount(env, table, o.header, o.lastLine, rows[1..]);
    }
  }

  /** A run that succeeds had no empty row. */
  lemma {:induction false} CzRunNoEmptyRow(env: Env, table: seq<Entry>, h: Header, last: string, rows: seq<seq<string>>)
    requires CzRunOf(env, table, h, last, rows).Ok?
    ensures NoEmptyRow(rows)
    decreases |rows|
  {
    if |rows| > 0 {
      CzRunStep(env, table, h, last, rows);
      var o := CzRecord(env, table, h, last, rows[0]).value;
      CzRecordSteps(env, table, h, last, rows[0]);
      CzRunNoEmptyRow(env, table, o.header, o.lastLine, rows[1..]);
      NoEmptyRowCons(rows);
    }
  }

  /** A run leaves `last_line` as feeding the rows' lead fields one by one
      does. */
  lemma {:induction false} CzRunLastLead(env: Env, table: seq<Entry>, h: Header, last: string, rows: seq<seq<string>>)
    requires CzRunOf(env, table, h, last, rows).Ok?
    ensures CzRunOf(env, table, h, last, rows).value.lastLine == LastLead(last, rows)
    decreases |rows|
  {
    if |rows| > 0 {
      CzRunStep(env, table, h, last, rows);
      var o := CzRecord(env, table, h, last, rows[0]).value;
      CzRecordSteps(env, table, h, last, rows[0]);
      CzRunLastLead(env, table, o.header, o.lastLine, rows[1..]);
    }
  }

  /** After a run, `last_line` is the last row's lead field. */
  lemma CzRunLast(env: Env, table: seq<Entry>, h: Header, last: string, rows: seq<seq<string>>)
    requires CzRunOf(env, table, h, last, rows).Ok?
    ensures CzRunOf(env, table, h, last, rows).value.lastLine == if |rows| == 0 then last else Lead(rows[|rows| - 1])
  {
    CzRunLastLead(env, table, h, last, rows);
    LastLeadSpec(last, rows);
  }
}
