/**
 * The balance checker: sums, per currency, what a finished Koinly file
 * receives minus what it sends and pays in fees. Amounts are exact reals.
 */
module KoinlyCheck {
  import opened Wrappers

  /**
   * Columns 1 to 6 of a Koinly line as the checker reads them. A currency is
   * the cell's text, "" when the cell is empty; an amount is None when its
   * cell is empty and otherwise the number the cell holds.
   */
  datatype LedgerRow = LedgerRow(
    sentAmount: Option<real>, sentCurrency: string,
    receivedAmount: Option<real>, receivedCurrency: string,
    feesAmount: Option<real>, feesCurrency: string)

  /** The KeyError that ends a run: `currency` had no entry when row `row` used it. */
  datatype MissingKey = MissingKey(row: nat, currency: string)

  // ---------------------------------------------------------------------------
  // The per-currency map, updated in place
  // ---------------------------------------------------------------------------

  /** The dictionary of balance changes, keyed by currency. */
  class BalanceChanges {
    var changes: map<string, real>

    /** The empty currency is never a key. */
    ghost predicate Valid()
      reads this
    {
      "" !in changes
    }

    constructor ()
      ensures Valid() && changes == map[]
    {
      changes := map[];
    }

    method InitForCurrency(currency: string)
      requires Valid()
      modifies this
      ensures Valid()
      ensures changes == WithEntry(old(changes), currency)
    {
      if currency != "" && currency !in changes {
        changes := changes[currency := 0.0];
      }
    }

    /** On the KeyError, the missing key is returned and nothing changes. */
    method Increase(amount: Option<real>, currency: string) returns (missing: Option<string>)
      requires Valid()
      modifies this
      ensures Valid()
      ensures Increased(old(changes), amount, currency)
        == if missing.Some? then Err(missing.value) else Ok(changes)
      ensures missing.Some? ==> changes == old(changes)
    {
      missing := None;
      if amount.Some? {
        if currency !in changes {
          return Some(currency);
        }
        changes := changes[currency := changes[currency] + amount.value];
      }
    }

    /** On the KeyError, the missing key is returned and nothing changes. */
    method Decrease(amount: Option<real>, currency: string) returns (missing: Option<string>)
      requires Valid()
      modifies this
      ensures Valid()
      ensures Decreased(old(changes), amount, currency)
        == if missing.Some? then Err(missing.value) else Ok(changes)
      ensures missing.Some? ==> changes == old(changes)
    {
      missing := None;
      if amount.Some? {
        if currency !in changes {
          return Some(currency);
        }
        changes := changes[currency := changes[currency] - amount.value];
      }
    }

    /**
     * The body of the checker's loop: initialises the row's three
     * currencies, then takes off the sent amount, adds the received amount
     * and takes off the fees, stopping at the first missing key.
     */
    method ApplyRow(row: LedgerRow) returns (missing: Option<string>)
      requires Valid()
      modifies this
      ensures Valid()
      ensures AfterRow(old(changes), row) == if missing.Some? then Err(missing.value) else Ok(changes)
    {
      InitForCurrency(row.sentCurrency);
      InitForCurrency(row.receivedCurrency);
      InitForCurrency(row.feesCurrency);
      missing := Decrease(row.sentAmount, row.sentCurrency);
      if missing.Some? {
        return;
      }
      missing := Increase(row.receivedAmount, row.receivedCurrency);
      if missing.Some? {
        return;
      }
      missing := Decrease(row.feesAmount, row.feesCurrency);
    }
  }

  /** The number in an amount cell, 0 for an empty one. */
  function Value(amount: Option<real>): real
  {
    if amount.Some? then amount.value else 0.0
  }

  /**
   * The map after initBalanceChangeForCurrency: a non-empty currency with no
   * entry gets the entry 0; every existing entry is kept as it is.
   */
  function WithEntry(m: map<string, real>, currency: string): (r: map<string, real>)
    ensures r.Keys == m.Keys + (if currency == "" then {} else {currency})
    ensures forall c | c in m :: r[c] == m[c]
    ensures currency != "" && currency !in m ==> r[currency] == 0.0
  {
    if currency != "" && currency !in m then m[currency := 0.0] else m
  }

  /**
   * The map after balanceIncrease: a non-empty amount is added to the entry
   * of `currency` and to nothing else; an empty amount changes nothing; a
   * non-empty amount on a currency with no entry is the KeyError on it.
   */
  function Increased(m: map<string, real>, amount: Option<real>, currency: string)
    : (r: Result<map<string, real>, string>)
    ensures r.Err? <==> amount.Some? && currency !in m
    ensures r.Err? ==> r.error == currency
    ensures r.Ok? ==> r.value.Keys == m.Keys
    ensures r.Ok? ==> forall c | c in m && c != currency :: r.value[c] == m[c]
    ensures r.Ok? && currency in m ==> r.value[currency] == m[currency] + Value(amount)
  {
    if amount.None? then Ok(m)
    else if currency !in m then Err(currency)
    else Ok(m[currency := m[currency] + amount.value])
  }

  /** The map after balanceDecrease: as Increased, but the amount is subtracted. */
  function Decreased(m: map<string, real>, amount: Option<real>, currency: string)
    : (r: Result<map<string, real>, string>)
    ensures r.Err? <==> amount.Some? && currency !in m
    ensures r.Err? ==> r.error == currency
    ensures r.Ok? ==> r.value.Keys == m.Keys
    ensures r.Ok? ==> forall c | c in m && c != currency :: r.value[c] == m[c]
    ensures r.Ok? && currency in m ==> r.value[currency] == m[currency] - Value(amount)
  {
    if amount.None? then Ok(m)
    else if currency !in m then Err(currency)
    else Ok(m[currency := m[currency] - amount.value])
  }

  /** The map once the row's three currencies are initialised. */
  function WithRowEntries(m: map<string, real>, row: LedgerRow): (r: map<string, real>)
    ensures r.Keys == m.Keys + RowCurrencies(row)
    ensures forall c | c in r :: r[c] == if c in m then m[c] else 0.0
  {
    WithEntry(WithEntry(WithEntry(m, row.sentCurrency), row.receivedCurrency), row.feesCurrency)
  }

  /** The map after one turn of the checker's loop, or the key it misses. */
  function AfterRow(m: map<string, real>, row: LedgerRow): Result<map<string, real>, string>
  {
    var m0 := WithRowEntries(m, row);
    match Decreased(m0, row.sentAmount, row.sentCurrency)
    case Err(k) => Err(k)
    case Ok(m1) =>
      match Increased(m1, row.receivedAmount, row.receivedCurrency)
      case Err(k) => Err(k)
      case Ok(m2) => Decreased(m2, row.feesAmount, row.feesCurrency)
  }

  // ---------------------------------------------------------------------------
  // What a run computes
  // ---------------------------------------------------------------------------

  /** The non-empty currencies a row names, whether or not its amounts are filled. */
  function RowCurrencies(row: LedgerRow): set<string>
  {
    {row.sentCurrency, row.receivedCurrency, row.feesCurrency} - {""}
  }

  /** The non-empty currencies named anywhere in `rows`. */
  function Currencies(rows: seq<LedgerRow>): set<string>
  {
    if rows == [] then {} else Currencies(rows[..|rows| - 1]) + RowCurrencies(rows[|rows| - 1])
  }

  /** The amount a cell moves in currency `c`. */
  function MovedIn(amount: Option<real>, currency: string, c: string): real
  {
    if currency == c then Value(amount) else 0.0
  }

  function TotalReceived(rows: seq<LedgerRow>, c: string): real
  {
    if rows == [] then 0.0
    else
      var row := rows[|rows| - 1];
      TotalReceived(rows[..|rows| - 1], c) + MovedIn(row.receivedAmount, row.receivedCurrency, c)
  }

  function TotalSent(rows: seq<LedgerRow>, c: string): real
  {
    if rows == [] then 0.0
    else
      var row := rows[|rows| - 1];
      TotalSent(rows[..|rows| - 1], c) + MovedIn(row.sentAmount, row.sentCurrency, c)
  }

  function TotalFees(rows: seq<LedgerRow>, c: string): real
  {
    if rows == [] then 0.0
    else
      var row := rows[|rows| - 1];
      TotalFees(rows[..|rows| - 1], c) + MovedIn(row.feesAmount, row.feesCurrency, c)
  }

  /** The balance change of `c` over `rows`: received minus sent minus fees. */
  function Net(rows: seq<LedgerRow>, c: string): real
  {
    TotalReceived(rows, c) - TotalSent(rows, c) - TotalFees(rows, c)
  }

  /** The change one row makes to the balance of `c`. */
  function RowDelta(row: LedgerRow, c: string): real
  {
    MovedIn(row.receivedAmount, row.receivedCurrency, c)
    - MovedIn(row.sentAmount, row.sentCurrency, c)
    - MovedIn(row.feesAmount, row.feesCurrency, c)
  }

  /** A row that puts a non-empty amount on an empty currency: its update misses its key. */
  predicate RowFails(row: LedgerRow)
  {
    (row.sentAmount.Some? && row.sentCurrency == "")
    || (row.receivedAmount.Some? && row.receivedCurrency == "")
    || (row.feesAmount.Some? && row.feesCurrency == "")
  }

  /** The position of the first row that puts an amount on an empty currency, if there is one. */
  function FirstFailure(rows: seq<LedgerRow>): (r: Option<nat>)
    ensures r.Some? ==>
      r.value < |rows| && RowFails(rows[r.value]) && forall i | 0 <= i < r.value :: !RowFails(rows[i])
    ensures r.None? ==> forall i | 0 <= i < |rows| :: !RowFails(rows[i])
  {
    if rows == [] then None
    else if RowFails(rows[0]) then Some(0)
    else
      match FirstFailure(rows[1..])
      case None => None
      case Some(k) => Some(k + 1)
  }

  /**
   * One row, on a map without the empty currency: the update misses a key
   * exactly when the row puts an amount on an empty currency, and the key
   * is then "". Otherwise every currency the row names is a key, each entry
   * moves by the row's received minus sent minus fees on it (from 0 for a
   * new one), and a currency the row does not name keeps its entry.
   */
  lemma AfterRowEffect(m: map<string, real>, row: LedgerRow)
    requires "" !in m
    ensures AfterRow(m, row).Err? <==> RowFails(row)
    ensures AfterRow(m, row).Err? ==> AfterRow(m, row).error == ""
    ensures AfterRow(m, row).Ok? ==>
      var r := AfterRow(m, row).value;
      "" !in r && r.Keys == m.Keys + RowCurrencies(row)
    ensures AfterRow(m, row).Ok? ==>
      var r := AfterRow(m, row).value;
      forall c | c in r :: r[c] == (if c in m then m[c] else 0.0) + RowDelta(row, c)
  {
  }

  /**
   * The checker's loop: fails at the first row that puts an amount on an
   * empty currency; otherwise the keys are exactly the currencies named and
   * each holds its net change over all rows.
   */
  method CheckBalanceChanges(rows: seq<LedgerRow>) returns (r: Result<map<string, real>, MissingKey>)
    ensures r.Err? <==> FirstFailure(rows).Some?
    ensures r.Err? ==> r.error == MissingKey(FirstFailure(rows).value, "")
    ensures r.Ok? ==> r.value.Keys == Currencies(rows)
    ensures r.Ok? ==> forall c | c in r.value :: r.value[c] == Net(rows, c)
  {
    var balances := new BalanceChanges();
    var i := 0;
    while i < |rows|
      invariant 0 <= i <= |rows|
      invariant forall k | 0 <= k < i :: !RowFails(rows[k])
      invariant balances.Valid() && Summarises(balances.changes, rows[..i])
    {
      AfterRowEffect(balances.changes, rows[i]);
      SummaryStep(balances.changes, rows[..i], rows[i]);
      var missing := balances.ApplyRow(rows[i]);
      if missing.Some? {
        assert RowFails(rows[i]) && missing.value == "";
        assert FirstFailure(rows) == Some(i);
        return Err(MissingKey(i, missing.value));
      }
      assert rows[..i + 1] == rows[..i] + [rows[i]];
      i := i + 1;
    }
    assert rows[..i] == rows;
    assert FirstFailure(rows).None?;
    return Ok(balances.changes);
  }

  // ---------------------------------------------------------------------------
  // Properties of the balance changes
  // ---------------------------------------------------------------------------

  /** `m` is the checker's map after `rows`: keyed by the currencies named, each holding its net change. */
  ghost predicate Summarises(m: map<string, real>, rows: seq<LedgerRow>)
  {
    m.Keys == Currencies(rows) && forall c | c in m :: m[c] == Net(rows, c)
  }

  /** A turn of the loop that does not miss a key carries the summary of `rows` to one of `rows + [row]`. */
  lemma SummaryStep(m: map<string, real>, rows: seq<LedgerRow>, row: LedgerRow)
    requires "" !in m && Summarises(m, rows)
    ensures AfterRow(m, row).Ok? ==> Summarises(AfterRow(m, row).value, rows + [row])
  {
    AfterRowEffect(m, row);
    if AfterRow(m, row).Ok? {
      var r := AfterRow(m, row).value;
      var rows' := rows + [row];
      assert rows'[..|rows'| - 1] == rows;
      forall c | c in r
        ensures r[c] == Net(rows', c)
      {
        if c !in m {
          UnnamedCurrencyUnchanged(rows, c);
        }
        NetStep(rows', c);
      }
    }
  }

  /**
   * One more row changes the balance of `c` by that row's received minus
   * sent minus fees on `c`, and names no currency but its own.
   */
  lemma NetStep(rows: seq<LedgerRow>, c: string)
    requires rows != []
    ensures Net(rows, c) == Net(rows[..|rows| - 1], c) + RowDelta(rows[|rows| - 1], c)
    ensures c !in RowCurrencies(rows[|rows| - 1]) && c != "" ==> Net(rows, c) == Net(rows[..|rows| - 1], c)
  {
  }

  /** A currency that no row names keeps a zero balance change. */
  lemma {:induction false} UnnamedCurrencyUnchanged(rows: seq<LedgerRow>, c: string)
    requires c != "" && c !in Currencies(rows)
    ensures Net(rows, c) == 0.0
    decreases |rows|
  {
    if rows != [] {
      UnnamedCurrencyUnchanged(rows[..|rows| - 1], c);
    }
  }

  // ---------------------------------------------------------------------------
  // The trimming step of formatAmount
  // ---------------------------------------------------------------------------

  /** `s` without its trailing '0' characters. */
  function StripTrailingZeros(s: string): (r: string)
    ensures r <= s
    ensures forall k | |r| <= k < |s| :: s[k] == '0'
    ensures r == [] || r[|r| - 1] != '0'
    decreases |s|
  {
    if s != [] && s[|s| - 1] == '0' then StripTrailingZeros(s[..|s| - 1]) else s
  }

  /**
   * The trimmed amount text: trailing '0's removed, then one trailing '.'.
   * None when nothing is left after the zeros, where Python's `[-1]` raises
   * IndexError.
   */
  function TrimAmountText(s: string): (r: Option<string>)
    ensures r.None? <==> forall k | 0 <= k < |s| :: s[k] == '0'
  {
    var t := StripTrailingZeros(s);
    if t == [] then None
    else if t[|t| - 1] == '.' then Some(t[..|t| - 1])
    else Some(t)
  }

  /** The two `while`/`if` steps that end formatAmount, on the rendered amount `text`. */
  method TrimAmount(text: string) returns (r: Option<string>)
    ensures r == TrimAmountText(text)
  {
    var strResult := text;
    while strResult != [] && strResult[|strResult| - 1] == '0'
      invariant StripTrailingZeros(strResult) == StripTrailingZeros(text)
      decreases |strResult|
    {
      strResult := strResult[..|strResult| - 1];
    }
    if strResult == [] {
      return None;
    }
    if strResult[|strResult| - 1] == '.' {
      strResult := strResult[..|strResult| - 1];
    }
    return Some(strResult);
  }

  /**
   * On a rendering with exactly one '.', at position `d`: the trimmed text is
   * a prefix that keeps the integer part, drops only the '.' and zeros, never
   * ends in '.', and a fraction it keeps never ends in '0'.
   */
  lemma TrimmedAmountShape(s: string, d: nat)
    requires d < |s| && s[d] == '.'
    requires forall k | 0 <= k < |s| && k != d :: s[k] != '.'
    ensures TrimAmountText(s).Some?
    ensures var r := TrimAmountText(s).value;
      r <= s && d <= |r| && r[..d] == s[..d]
    ensures var r := TrimAmountText(s).value;
      forall k | |r| <= k < |s| :: s[k] == '0' || k == d
    ensures var r := TrimAmountText(s).value;
      r == [] || r[|r| - 1] != '.'
    ensures var r := TrimAmountText(s).value;
      d < |r| ==> r[|r| - 1] != '0'
  {
  }
}
