/**
  `dataframe_row_to_transaction`: one row of a table GMFT extracted becomes
  a transaction.  Each cell is routed by its column header through an
  `if`/`elif` chain; later cells overwrite earlier ones, except that a
  generic "amount" column never overrides an amount already set.
*/
module TableRows {
  import opened Wrappers
  import opened Text
  import opened Decimals
  import opened Records
  import opened ColumnAnchors

  /** One cell of a row: `str(col)` and `str(value)`. */
  datatype Cell = Cell(header: string, value: string)

  /** The branch of the chain a column header selects. */
  datatype Role = DateRole | DescriptionRole | DebitRole | CreditRole | BalanceRole | AmountRole | OtherRole

  /** The `if`/`elif` tests on `str(col).lower()`, in their order, each with the role it selects. */
  const RoleTests: seq<(seq<string>, Role)> := [
    (["date"], DateRole),
    (["description", "memo", "detail"], DescriptionRole),
    (["debit", "withdrawal"], DebitRole),
    (["credit", "deposit"], CreditRole),
    (["balance"], BalanceRole),
    (["amount"], AmountRole)
  ]

  /** The role of the first test at position `k` or later that the lower-cased header passes. */
  function RoleFrom(h: string, k: nat): Role
    decreases |RoleTests| - k
  {
    if k >= |RoleTests| then OtherRole
    else if AnyContains(h, RoleTests[k].0) then RoleTests[k].1
    else RoleFrom(h, k + 1)
  }

  function RoleOf(header: string): Role {
    RoleFrom(LowerStr(header), 0)
  }

  /** `str(value).strip()`, or `None` for a cell the loop skips: blank or 'nan'. */
  function CellText(c: Cell): (v: Option<string>)
    ensures v.Some? ==> v.value != [] && v.value != "nan"
  {
    var v := Strip(c.value);
    if v == [] || v == "nan" then None else Some(v)
  }

  /** `val_str.replace('$', '').replace(',', '')`. */
  function Unformatted(v: string): string {
    RemoveAll(RemoveAll(v, "$"), ",")
  }

  /** The amount column also reads "(12.00)" as "-12.00": `.replace('(', '-').replace(')', '')`. */
  function Unparenthesized(v: string): string {
    RemoveAll(ReplaceChar(Unformatted(v), '(', '-'), ")")
  }

  /** `'debit' if amount < 0 else 'credit'`. */
  function TypeOfSigned(x: real): TxType {
    if x < 0.0 then Debit else Credit
  }

  /** The loop's variables `date`, `description`, `amount`, `balance` and `tx_type`. */
  datatype RowState = RowState(
    date: Option<string>,
    description: string,
    amount: Option<real>,
    balance: Option<real>,
    txType: TxType)

  const Initial: RowState := RowState(None, "", None, None, Unknown)

  /** One iteration of the loop: a blank or 'nan' cell changes nothing. */
  function Step(st: RowState, c: Cell): RowState {
    var text := CellText(c);
    if text.None? then st else StepOn(st, text.value, RoleOf(c.header))
  }

  /**
    One used cell with text `v` whose header selects `role`; a value
    `float()` rejects leaves everything as it was.  `plain` is the value with
    "$" and "," removed, which the debit, credit and balance branches convert.
  */
  function StepOn(st: RowState, v: string, role: Role): RowState {
    var plain := ParseFloat(Unformatted(v));
    match role
    case DateRole => st.(date := Some(v))
    case DescriptionRole => st.(description := v)
    case DebitRole => if plain.Some? then st.(amount := Some(-Abs(plain.value)), txType := Debit) else st
    case CreditRole => if plain.Some? then st.(amount := Some(Abs(plain.value)), txType := Credit) else st
    case BalanceRole => if plain.Some? then st.(balance := plain) else st
    case AmountRole =>
      var x := ParseFloat(Unparenthesized(v));
      if st.amount.None? && x.Some? then st.(amount := x, txType := TypeOfSigned(x.value)) else st
    case OtherRole => st
  }

  /** The loop's variables after the cells of `row`, in order. */
  function Scan(row: seq<Cell>): RowState {
    if row == [] then Initial else Step(Scan(row[..|row| - 1]), row[|row| - 1])
  }

  /** GMFT rows get a fixed confidence: the extractor is taken as reliable. */
  const GmftConfidence: real := 0.85

  /** The function's result for a row; `rawText` is `str(row.to_dict())`. */
  function RowTransaction(row: seq<Cell>, rawText: string): Option<Transaction> {
    var st := Scan(row);
    if st.amount.None? && st.description == [] then None
    else
      Some(Transaction(
        st.date,
        Take(st.description, DescriptionLimit),
        if st.amount.Some? then Abs(st.amount.value) else 0.0,
        st.txType,
        st.balance,
        GmftConfidence,
        None,
        rawText))
  }

  method DataframeRowToTransaction(row: seq<Cell>, rawText: string) returns (r: Option<Transaction>)
    ensures r == RowTransaction(row, rawText)
  {
    var date: Option<string> := None;
    var description := "";
    var amount: Option<real> := None;
    var balance: Option<real> := None;
    var txType := Unknown;
    for i := 0 to |row|
      invariant Scan(row[..i]) == RowState(date, description, amount, balance, txType)
    {
      assert row[..i + 1][..i] == row[..i];
      var valStr := Strip(row[i].value);
      if valStr == [] || valStr == "nan" {
        continue;
      }
      var role := RoleOf(row[i].header);
      date, description, amount, balance, txType := ReadCell(date, description, amount, balance, txType, valStr, role);
    }
    assert row[..|row|] == row;
    if amount.None? && description == [] {
      return None;
    }
    r := Some(Transaction(
      date,
      Take(description, DescriptionLimit),
      if amount.Some? then Abs(amount.value) else 0.0,
      txType,
      balance,
      GmftConfidence,
      None,
      rawText));
  }

  /** The `if`/`elif` chain of the loop body, for a used cell with text `valStr` whose header selects `role`. */
  method ReadCell(date: Option<string>, description: string, amount: Option<real>, balance: Option<real>,
                  txType: TxType, valStr: string, role: Role)
    returns (date': Option<string>, description': string, amount': Option<real>, balance': Option<real>,
             txType': TxType)
    ensures RowState(date', description', amount', balance', txType') ==
              StepOn(RowState(date, description, amount, balance, txType), valStr, role)
  {
    date', description', amount', balance', txType' := date, description, amount, balance, txType;
    ghost var plain := ParseFloat(Unformatted(valStr));
    match role {
      case DateRole =>
        date' := Some(valStr);
      case DescriptionRole =>
        description' := valStr;
      case DebitRole =>
        var x := ParseFloat(Unformatted(valStr));
        assert x == plain;
        if x.Some? {
          amount' := Some(-Abs(x.value));
          txType' := Debit;
        }
      case CreditRole =>
        var x := ParseFloat(Unformatted(valStr));
        assert x == plain;
        if x.Some? {
          amount' := Some(Abs(x.value));
          txType' := Credit;
        }
      case BalanceRole =>
        var x := ParseFloat(Unformatted(valStr));
        assert x == plain;
        if x.Some? {
          balance' := x;
        }
      case AmountRole =>
        if amount.None? {
          var x := ParseFloat(Unparenthesized(valStr));
          if x.Some? {
            amount' := x;
            txType' := if x.value < 0.0 then Debit else Credit;
          }
        }
      case OtherRole =>
    }
  }

  // Reference definitions: what each output field comes from, cell by cell.

  /** The text of the last used cell of `row` whose header selects `role`. */
  function LastText(row: seq<Cell>, role: Role): Option<string> {
    if row == [] then None
    else
      var c := row[|row| - 1];
      if CellText(c).Some? && RoleOf(c.header) == role then CellText(c) else LastText(row[..|row| - 1], role)
  }

  /** The value a balance cell holds, if `float()` accepts it. */
  function BalanceIn(c: Cell): Option<real> {
    if CellText(c).Some? && RoleOf(c.header) == BalanceRole then ParseFloat(Unformatted(CellText(c).value))
    else None
  }

  /** The value of the last balance cell `float()` accepts. */
  function LastBalance(row: seq<Cell>): Option<real> {
    if row == [] then None
    else if BalanceIn(row[|row| - 1]).Some? then BalanceIn(row[|row| - 1])
    else LastBalance(row[..|row| - 1])
  }

  /** What a debit or credit cell posts: a value `float()` accepts, made negative for debits and positive for credits. */
  function Posted(c: Cell): Option<(real, TxType)> {
    if CellText(c).None? then None
    else
      var role := RoleOf(c.header);
      var x := ParseFloat(Unformatted(CellText(c).value));
      if x.None? then None
      else if role == DebitRole then Some((-Abs(x.value), Debit))
      else if role == CreditRole then Some((Abs(x.value), Credit))
      else None
  }

  /** The last posting debit or credit cell. */
  function LastPosted(row: seq<Cell>): Option<(real, TxType)> {
    if row == [] then None
    else if Posted(row[|row| - 1]).Some? then Posted(row[|row| - 1])
    else LastPosted(row[..|row| - 1])
  }

  /** The value of a generic amount cell, if `float()` accepts it. */
  function AmountIn(c: Cell): Option<real> {
    if CellText(c).Some? && RoleOf(c.header) == AmountRole then ParseFloat(Unparenthesized(CellText(c).value))
    else None
  }

  /** The first generic amount cell `float()` accepts. */
  function FirstAmount(row: seq<Cell>): Option<real> {
    if row == [] then None
    else if FirstAmount(row[..|row| - 1]).Some? then FirstAmount(row[..|row| - 1])
    else AmountIn(row[|row| - 1])
  }

  /**
    The signed amount and type a row ends with: the last debit or credit
    cell wins; without one, the first generic amount cell, typed by its sign;
    without either, no amount and 'unknown'.
  */
  function Resolved(row: seq<Cell>): (Option<real>, TxType) {
    if LastPosted(row).Some? then (Some(LastPosted(row).value.0), LastPosted(row).value.1)
    else if FirstAmount(row).Some? then (FirstAmount(row), TypeOfSigned(FirstAmount(row).value))
    else (None, Unknown)
  }

  lemma StepTexts(st: RowState, c: Cell)
    ensures Step(st, c).date == if CellText(c).Some? && RoleOf(c.header) == DateRole then CellText(c) else st.date
    ensures Step(st, c).description ==
              if CellText(c).Some? && RoleOf(c.header) == DescriptionRole then CellText(c).value else st.description
  {
  }

  lemma StepBalance(st: RowState, c: Cell)
    ensures Step(st, c).balance == if BalanceIn(c).Some? then BalanceIn(c) else st.balance
  {
  }

  lemma StepPosted(st: RowState, c: Cell)
    requires Posted(c).Some?
    ensures Step(st, c).amount == Some(Posted(c).value.0) && Step(st, c).txType == Posted(c).value.1
  {
  }

  lemma StepAmountCell(st: RowState, c: Cell)
    requires Posted(c).None?
    ensures st.amount.None? && AmountIn(c).Some? ==>
              Step(st, c).amount == AmountIn(c) && Step(st, c).txType == TypeOfSigned(AmountIn(c).value)
    ensures st.amount.Some? || AmountIn(c).None? ==>
              Step(st, c).amount == st.amount && Step(st, c).txType == st.txType
  {
  }

  /** Dates, descriptions and balances: the last usable cell of the column wins. */
  lemma {:induction false} ScanKeepsLast(row: seq<Cell>)
    ensures Scan(row).date == LastText(row, DateRole)
    ensures Scan(row).description == if LastText(row, DescriptionRole).Some? then LastText(row, DescriptionRole).value else ""
    ensures Scan(row).balance == LastBalance(row)
  {
    if row != [] {
      var p := row[..|row| - 1];
      ScanKeepsLast(p);
      StepTexts(Scan(p), row[|row| - 1]);
      StepBalance(Scan(p), row[|row| - 1]);
    }
  }

  /**
    Amounts: a debit or credit cell always sets the amount, a generic amount
    cell only while none is set, and the type always follows.
  */
  lemma {:induction false} ScanResolvesAmount(row: seq<Cell>)
    ensures (Scan(row).amount, Scan(row).txType) == Resolved(row)
  {
    if row != [] {
      var p := row[..|row| - 1];
      ScanResolvesAmount(p);
      if Posted(row[|row| - 1]).Some? {
        StepPosted(Scan(p), row[|row| - 1]);
      } else {
        StepAmountCell(Scan(p), row[|row| - 1]);
      }
    }
  }

  /** The amount and the type agree: negative is 'debit', positive is 'credit', none is 'unknown'. */
  lemma TypeAgreesWithAmount(row: seq<Cell>)
    ensures Scan(row).amount.None? <==> Scan(row).txType == Unknown
    ensures Scan(row).amount.Some? && Scan(row).amount.value < 0.0 ==> Scan(row).txType == Debit
    ensures Scan(row).amount.Some? && Scan(row).amount.value > 0.0 ==> Scan(row).txType == Credit
  {
    ScanResolvesAmount(row);
    LastPostedSign(row);
  }

  /** The last posting cell is a debit with a non-positive amount or a credit with a non-negative one. */
  lemma {:induction false} LastPostedSign(row: seq<Cell>)
    ensures LastPosted(row).Some? ==>
              || (LastPosted(row).value.1 == Debit && LastPosted(row).value.0 <= 0.0)
              || (LastPosted(row).value.1 == Credit && LastPosted(row).value.0 >= 0.0)
  {
    if row != [] && Posted(row[|row| - 1]).None? {
      LastPostedSign(row[..|row| - 1]);
    }
  }

  /**
    What `dataframe_row_to_transaction` returns: nothing only for a row with
    neither an amount nor a description; otherwise the resolved amount made
    non-negative (0 when there is none), its type, the last date,
    description (cut to 200 characters) and balance, and confidence 0.85.
  */
  lemma RowResult(row: seq<Cell>, rawText: string)
    ensures RowTransaction(row, rawText).None? <==>
              Resolved(row).0.None? && LastText(row, DescriptionRole).None?
    ensures RowTransaction(row, rawText).Some? ==>
              var t := RowTransaction(row, rawText).value;
              && t.amount >= 0.0
              && t.amount == (if Resolved(row).0.Some? then Abs(Resolved(row).0.value) else 0.0)
              && t.txType == Resolved(row).1
              && t.date == LastText(row, DateRole)
              && t.description == Take(if LastText(row, DescriptionRole).Some? then LastText(row, DescriptionRole).value else "", DescriptionLimit)
              && |t.description| <= DescriptionLimit
              && t.balance == LastBalance(row)
              && t.confidence == GmftConfidence
              && t.bbox.None?
              && t.rawText == rawText
  {
    ScanKeepsLast(row);
    ScanResolvesAmount(row);
    LastTextNonEmpty(row, DescriptionRole);
  }

  lemma {:induction false} LastTextNonEmpty(row: seq<Cell>, role: Role)
    ensures LastText(row, role).Some? ==> LastText(row, role).value != []
  {
    if row != [] {
      LastTextNonEmpty(row[..|row| - 1], role);
    }
  }

  /** A debit or withdrawal cell never posts a positive amount, a credit or deposit cell never a negative one. */
  lemma PostedSign(c: Cell)
    ensures Posted(c).Some? && Posted(c).value.1 == Debit ==> Posted(c).value.0 <= 0.0
    ensures Posted(c).Some? && Posted(c).value.1 == Credit ==> Posted(c).value.0 >= 0.0
    ensures Posted(c).Some? ==> RoleOf(c.header) == (if Posted(c).value.1 == Debit then DebitRole else CreditRole)
  {
  }
}
