/** What the Czech and Slovak parsers do alike to one CSV row: the amount
    cleanup of their `parse_float`, the transaction-row test, the rewrite of
    the lead field from the execution date quoted in the memo, the
    positional field mapping of the base CSV parser, and Python's
    truthiness of the header values. */
module StatementRows {
  import opened Wrappers
  import opened PyText
  import opened PyDate

  // ---------------------------------------------------------------------
  // Amount text

  /** `value.replace(" ", "").replace(",", ".")`, the cleanup `parse_float`
      does before `float()`: no space and no comma is left, each comma has
      become a dot, and every other character is kept as often as it was. */
  function AmountText(s: string): (r: string)
    ensures forall i | 0 <= i < |r| :: r[i] != ' ' && r[i] != ','
    ensures multiset(r)['.'] == multiset(s)['.'] + multiset(s)[',']
    ensures forall c | c != ' ' && c != ',' && c != '.' :: multiset(r)[c] == multiset(s)[c]
  {
    var t := Without(s, {' '});
    CleanupChars(s, t);
    CleanupCounts(s, t);
    ReplaceChar(t, ',', '.')
  }

  /** No space and no comma survive the cleanup. */
  lemma CleanupChars(s: string, t: string)
    requires t == Without(s, {' '})
    ensures var r := ReplaceChar(t, ',', '.');
            forall i | 0 <= i < |r| :: r[i] != ' ' && r[i] != ','
  {
    WithoutChars(s, {' '});
    var r := ReplaceChar(t, ',', '.');
    forall i | 0 <= i < |r| ensures r[i] != ' ' && r[i] != ',' {
      assert t[i] != ' ';
    }
  }

  /** The counting argument behind `AmountText`'s contract. */
  lemma CleanupCounts(s: string, t: string)
    requires t == Without(s, {' '})
    ensures var r := ReplaceChar(t, ',', '.');
            && multiset(r)['.'] == multiset(s)['.'] + multiset(s)[',']
            && forall c | c != ' ' && c != ',' && c != '.' :: multiset(r)[c] == multiset(s)[c]
  {
    WithoutCounts(s, {' '});
    ReplaceCharCounts(t, ',', '.');
    CountsCompose(multiset(s), multiset(t), multiset(ReplaceChar(t, ',', '.')));
  }

  /** Dropping spaces and then turning commas into dots, counted. */
  lemma CountsCompose(s: multiset<char>, t: multiset<char>, r: multiset<char>)
    requires forall c | c != ' ' :: t[c] == s[c]
    requires r['.'] == t['.'] + t[',']
    requires forall c | c != ',' && c != '.' :: r[c] == t[c]
    ensures r['.'] == s['.'] + s[',']
    ensures forall c | c != ' ' && c != ',' && c != '.' :: r[c] == s[c]
  {
  }

  /** The cleanup works character by character and keeps the order: the
      cleaned text of `s + t` is that of `s` followed by that of `t`. */
  lemma AmountTextAppend(s: string, t: string)
    ensures AmountText(s + t) == AmountText(s) + AmountText(t)
  {
    WithoutAppend(s, t, {' '});
    ReplaceCharAppend(Without(s, {' '}), Without(t, {' '}), ',', '.');
  }

  /** One character: a space is dropped, a comma becomes a dot, anything
      else is kept. With `AmountTextAppend` this fixes the cleaned text of
      every string. */
  lemma AmountTextOne(c: char)
    ensures AmountText([c]) == if c == ' ' then [] else if c == ',' then "." else [c]
  {
    WithoutOne(c, {' '});
  }

  /** `parse_float(value)`: the cleaned text handed to `float()`, which
      `floatOf` stands for (None where it raises ValueError). */
  function ParseFloat(floatOf: string -> Option<real>, value: string): Option<real> {
    floatOf(AmountText(value))
  }

  // ---------------------------------------------------------------------
  // Rows

  /** `len(line) > 10` and both `line[0]` and `line[1]` match
      `^\d{2}-\d{2}-\d{4}$`. */
  predicate IsTransactionRow(row: seq<string>) {
    |row| > 10 && DateShaped(row[0]) && DateShaped(row[1])
  }

  /** `"-".join([g3, g2, g1])` for the groups of an execution-date match. */
  function ReversedDate(g: Groups): string {
    g.third + "-" + g.second + "-" + g.first
  }

  /** The lead field after the execution-date rewrite: when
      `re.search(marker + r"(\d+)-(\d+)-(\d+)", memo)` finds a match, its
      groups joined in reverse order; otherwise the lead field unchanged. */
  function RewrittenLead(marker: string, lead: string, memo: string): string {
    match SearchGroups(marker, memo)
    case Some(hit) => ReversedDate(hit.groups)
    case None => lead
  }

  /** The row after the execution-date rewrite of its lead field, with the
      memo in field 3. */
  function RewrittenRow(marker: string, row: seq<string>): seq<string>
    requires |row| > 3
  {
    row[0 := RewrittenLead(marker, row[0], row[3])]
  }

  /** The five fields the base CSV parser maps, `mappings = {"date_user": 0,
      "date": 1, "payee": 4, "memo": 3, "amount": 9}`: the user date stays
      text, the date is read with "%d-%m-%Y" and the amount with
      `parse_float`. */
  datatype Mapped = Mapped(dateUser: string, date: CivilDate, payee: string, memo: string, amount: real)

  /** The base parser's per-row mapping, fields in the mapping's order: the
      date first, so its error comes before the amount's. */
  function MapRow(floatOf: string -> Option<real>, row: seq<string>): Result<Mapped>
    requires |row| > 9
  {
    match StrpDate(row[1], '-')
    case None => Err(BadDate(row[1]))
    case Some(date) =>
      match ParseFloat(floatOf, row[9])
      case None => Err(BadNumber(AmountText(row[9])))
      case Some(amount) => Ok(Mapped(row[0], date, row[4], row[3], amount))
  }

  // ---------------------------------------------------------------------
  // Header values

  /** Python truthiness of an optional text value: neither None nor "". */
  predicate TruthyText(o: Option<string>) { o.Some? && o.value != "" }

  /** Python truthiness of an optional number: neither None nor zero. */
  predicate TruthyNumber(o: Option<real>) { o.Some? && o.value != 0.0 }

  // ---------------------------------------------------------------------
  // Properties

  /** Removing characters a text does not hold changes nothing. */
  lemma {:induction false} WithoutAbsent(s: string, drop: set<char>)
    requires forall i | 0 <= i < |s| :: s[i] !in drop
    ensures Without(s, drop) == s
  {
    if |s| > 0 {
      WithoutAbsent(s[1..], drop);
      assert s == [s[0]] + s[1..];
    }
  }

  /** Text without spaces and commas is its own amount text. */
  lemma AmountTextClean(s: string)
    requires forall i | 0 <= i < |s| :: s[i] != ' ' && s[i] != ','
    ensures AmountText(s) == s
  {
    WithoutAbsent(s, {' '});
    assert ReplaceChar(s, ',', '.') == s;
  }

  /** The cleanup is idempotent: cleaning cleaned text changes nothing. */
  lemma AmountTextIdempotent(s: string)
    ensures AmountText(AmountText(s)) == AmountText(s)
  {
    AmountTextClean(AmountText(s));
  }

  /** With no match of the execution-date pattern in the memo, the lead
      field is left as it was. */
  lemma RewrittenLeadNoMatch(marker: string, lead: string, memo: string)
    requires forall j, g | 0 <= j <= |memo| :: !GroupsAt(marker, memo, j, g)
    ensures RewrittenLead(marker, lead, memo) == lead
  {
    SearchGroupsFromSpec(marker, memo, 0);
    var r := SearchGroups(marker, memo);
    if r.Some? {
      GroupsMatchAtSpec(marker, memo, r.value.pos);
    }
  }

  /** With a match in the memo, the leftmost one decides: the lead field
      becomes its three groups joined by dashes in reverse order. */
  lemma RewrittenLeadMatch(marker: string, lead: string, memo: string, p: nat, g: Groups)
    requires p <= |memo| && GroupsAt(marker, memo, p, g)
    requires forall j, h | 0 <= j < p :: !GroupsAt(marker, memo, j, h)
    ensures RewrittenLead(marker, lead, memo) == ReversedDate(g)
  {
    SearchGroupsFromSpec(marker, memo, 0);
    GroupsMatchAtSpec(marker, memo, p);
    var r := SearchGroups(marker, memo);
    assert r.Some?;
    GroupsMatchAtSpec(marker, memo, r.value.pos);
    assert r.value.pos == p;
  }

  /** The rewritten lead field splits back at its dashes into the captured
      groups, last group first: strptime's day is the third group, its
      month the second and its year the first. */
  lemma ReversedDateFields(g: Groups)
    requires DigitGroups(g)
    ensures var r := ReversedDate(g);
            && FirstSegment(r, '-') == g.third
            && FirstSegment(r[|g.third| + 1..], '-') == g.second
            && r[|g.third| + 1 + |g.second| + 1..] == g.first
  {
    var r := ReversedDate(g);
    assert '-' !in g.third && '-' !in g.second;
    assert r == g.third + ['-'] + (g.second + ['-'] + g.first);
    FirstSegmentBefore(g.third, '-', g.second + ['-'] + g.first);
    assert r[|g.third| + 1..] == g.second + ['-'] + g.first;
    FirstSegmentBefore(g.second, '-', g.first);
  }

  /** The rewrite touches the lead field only. */
  lemma RewrittenRowKeeps(marker: string, row: seq<string>)
    requires |row| > 3
    ensures var r := RewrittenRow(marker, row);
            && |r| == |row| && r[0] == RewrittenLead(marker, row[0], row[3])
            && forall k | 1 <= k < |row| :: r[k] == row[k]
  {
  }

  /** A digit string that a strptime field accepts has its decimal value. */
  lemma DigitFieldValue(t: string)
    requires AllDigits(t)
    ensures DayField(t).Some? ==> DayField(t).value == DigitValue(t)
    ensures MonthField(t).Some? ==> MonthField(t).value == DigitValue(t)
    ensures YearField(t).Some? ==> YearField(t).value == DigitValue(t)
  {
    if |t| == 1 {
      assert t[..0] == [];
    }
  }

  /** Reading a rewritten lead field gives the execution date's numbers. */
  lemma StrpReversedDate(g: Groups)
    requires DigitGroups(g)
    requires StrpDate(ReversedDate(g), '-').Some?
    ensures StrpDate(ReversedDate(g), '-').value == CivilDate(DigitValue(g.third), DigitValue(g.second), DigitValue(g.first))
  {
    ReversedDateFields(g);
    DigitFieldValue(g.third);
    DigitFieldValue(g.second);
    DigitFieldValue(g.first);
  }

  /** The date strptime reads from the lead field after the rewrite: the
      execution date quoted in the memo (its leftmost occurrence, day, month
      and year taken from the reversed groups) when there is one, and the
      lead field's own date otherwise. */
  lemma RewrittenLeadDate(marker: string, lead: string, memo: string)
    requires DateShaped(lead)
    requires StrpDate(RewrittenLead(marker, lead, memo), '-').Some?
    ensures var d := StrpDate(RewrittenLead(marker, lead, memo), '-').value;
            && (forall p: nat, g | p <= |memo| && GroupsAt(marker, memo, p, g)
                  && (forall j, k | 0 <= j < p :: !GroupsAt(marker, memo, j, k)) ::
                  d == CivilDate(DigitValue(g.third), DigitValue(g.second), DigitValue(g.first)))
            && ((forall j, k | 0 <= j <= |memo| :: !GroupsAt(marker, memo, j, k)) ==>
                  |lead| == 10 && d == ShapedFields(lead))
  {
    var d := StrpDate(RewrittenLead(marker, lead, memo), '-').value;
    forall p: nat, g | p <= |memo| && GroupsAt(marker, memo, p, g)
                  && (forall j, k | 0 <= j < p :: !GroupsAt(marker, memo, j, k))
      ensures d == CivilDate(DigitValue(g.third), DigitValue(g.second), DigitValue(g.first))
    {
      RewrittenLeadMatch(marker, lead, memo, p, g);
      StrpReversedDate(g);
    }
    if forall j, k | 0 <= j <= |memo| :: !GroupsAt(marker, memo, j, k) {
      RewrittenLeadNoMatch(marker, lead, memo);
      StrpShapedDate(lead);
    }
  }

  // ---------------------------------------------------------------------
  // Runs over the rows of a file

  /** The number of transaction rows. */
  function TransactionCount(rows: seq<seq<string>>): nat
    decreases |rows|
  {
    if |rows| == 0 then 0
    else (if IsTransactionRow(rows[0]) then 1 else 0) + TransactionCount(rows[1..])
  }

  /** The lead field of a row, "" for an empty one. */
  function Lead(row: seq<string>): string {
    if |row| > 0 then row[0] else ""
  }

  /** `last_line` after feeding `rows` one by one, starting from `last`. */
  function LastLead(last: string, rows: seq<seq<string>>): string
    decreases |rows|
  {
    if |rows| == 0 then last else LastLead(Lead(rows[0]), rows[1..])
  }

  /** ... which is the lead field of the last row, if there is one. */
  lemma {:induction false} LastLeadSpec(last: string, rows: seq<seq<string>>)
    ensures LastLead(last, rows) == if |rows| == 0 then last else Lead(rows[|rows| - 1])
    decreases |rows|
  {
    if |rows| > 0 {
      LastLeadSpec(Lead(rows[0]), rows[1..]);
      if |rows| > 1 {
        assert rows[1..][|rows| - 2] == rows[|rows| - 1];
      }
    }
  }

  /** Every row has a lead field. */
  predicate NoEmptyRow(rows: seq<seq<string>>) {
    forall i | 0 <= i < |rows| :: |rows[i]| > 0
  }

  /** A first row with a lead field in front of rows that all have one. */
  lemma NoEmptyRowCons(rows: seq<seq<string>>)
    requires |rows| > 0 && |rows[0]| > 0 && NoEmptyRow(rows[1..])
    ensures NoEmptyRow(rows)
  {
    forall i | 0 <= i < |rows| ensures |rows[i]| > 0 {
      if i > 0 {
        assert rows[i] == rows[1..][i - 1];
      }
    }
  }
}
