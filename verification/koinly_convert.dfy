/**
 * The Meria ("Waltio" export) converter: each already-split data row of the
 * export becomes one Koinly ledger line.
 */
module KoinlyConvert {
  import opened Wrappers

  /** The base fiat currency: a credit in it with no more specific label is "liquidity in". */
  const FiatBaseCurrency: string := "EUR"

  /** Meria `txInfo` values for which a credit row fills the received side. */
  const CreditInfos: set<string> := {"airdrop", "deposit", "order", "reward", "unstaking", "resale"}

  /** Meria `txInfo` values for which a debit row fills the sent side. */
  const DebitInfos: set<string> := {"masternode", "order", "reinvestment", "staking"}

  // ---------------------------------------------------------------------------
  // The output record
  // ---------------------------------------------------------------------------

  /**
   * One line of a Koinly import file. Every field but the date may be absent;
   * as with the keyword arguments of the Python constructor, all fields after
   * the received currency default to absent.
   */
  datatype OutputLine = OutputLine(
    txDate: string,
    sentAmount: Option<string>, sentCurrency: Option<string>,
    receivedAmount: Option<string>, receivedCurrency: Option<string>,
    feeAmount: Option<string> := None, feeCurrency: Option<string> := None,
    netWorthAmount: Option<string> := None, netWorthCurrency: Option<string> := None,
    txLabel: Option<string> := None,
    description: Option<string> := None,
    txHash: Option<string> := None)
  {
    /** The value held in column `c`; the date is always present. */
    function Get(c: Column): Option<string>
    {
      match c
      case Date => Some(txDate)
      case SentAmount => sentAmount
      case SentCurrency => sentCurrency
      case ReceivedAmount => receivedAmount
      case ReceivedCurrency => receivedCurrency
      case FeeAmount => feeAmount
      case FeeCurrency => feeCurrency
      case NetWorthAmount => netWorthAmount
      case NetWorthCurrency => netWorthCurrency
      case Label => txLabel
      case Description => description
      case TxHash => txHash
    }

    /** The line as one CSV record: every column's value at that column's position. */
    function ToList(): (r: seq<Option<string>>)
      ensures |r| == ColumnCount
      ensures forall c: Column :: r[Position(c)] == Get(c)
    {
      [Some(txDate),
       sentAmount, sentCurrency,
       receivedAmount, receivedCurrency,
       feeAmount, feeCurrency,
       netWorthAmount, netWorthCurrency,
       txLabel,
       description,
       txHash]
    }
  }

  /** The columns of a Koinly import file. */
  datatype Column =
    | Date | SentAmount | SentCurrency | ReceivedAmount | ReceivedCurrency
    | FeeAmount | FeeCurrency | NetWorthAmount | NetWorthCurrency
    | Label | Description | TxHash

  const ColumnCount: nat := 12

  /** The fixed position of each column in a record. */
  function Position(c: Column): nat
  {
    match c
    case Date => 0
    case SentAmount => 1
    case SentCurrency => 2
    case ReceivedAmount => 3
    case ReceivedCurrency => 4
    case FeeAmount => 5
    case FeeCurrency => 6
    case NetWorthAmount => 7
    case NetWorthCurrency => 8
    case Label => 9
    case Description => 10
    case TxHash => 11
  }

  /** The title Koinly expects at the head of each column. */
  function Title(c: Column): string
  {
    match c
    case Date => "Date"
    case SentAmount => "Sent Amount"
    case SentCurrency => "Sent Currency"
    case ReceivedAmount => "Received Amount"
    case ReceivedCurrency => "Received Currency"
    case FeeAmount => "Fee Amount"
    case FeeCurrency => "Fee Currency"
    case NetWorthAmount => "Net Worth Amount"
    case NetWorthCurrency => "Net Worth Currency"
    case Label => "Label"
    case Description => "Description"
    case TxHash => "TxHash"
  }

  /** The positions are a one-to-one numbering of the columns by 0 .. ColumnCount - 1. */
  lemma PositionsNumberColumns()
    ensures forall c: Column :: Position(c) < ColumnCount
    ensures forall c1: Column, c2: Column :: Position(c1) == Position(c2) ==> c1 == c2
  {
  }

  /** The header line: each column's title sits where ToList puts that column's value. */
  function Headers(): (h: OutputLine)
    ensures forall c: Column :: h.ToList()[Position(c)] == Some(Title(c))
  {
    OutputLine(
      txDate := "Date",
      sentAmount := Some("Sent Amount"), sentCurrency := Some("Sent Currency"),
      receivedAmount := Some("Received Amount"), receivedCurrency := Some("Received Currency"),
      feeAmount := Some("Fee Amount"), feeCurrency := Some("Fee Currency"),
      netWorthAmount := Some("Net Worth Amount"), netWorthCurrency := Some("Net Worth Currency"),
      txLabel := Some("Label"),
      description := Some("Description"),
      txHash := Some("TxHash"))
  }

  // ---------------------------------------------------------------------------
  // Helpers of the converter
  // ---------------------------------------------------------------------------

  /** The ticker "LUNA" is renamed "LUNA2"; every other value, absent included, is kept. */
  function NormalizeLunaTicker(ticker: Option<string>): (r: Option<string>)
    ensures r != Some("LUNA")
    ensures ticker == Some("LUNA") ==> r == Some("LUNA2")
    ensures ticker != Some("LUNA") ==> r == ticker
  {
    if ticker != Some("LUNA") then ticker else Some("LUNA2")
  }

  /** `s` occurs as a contiguous piece of `t`. */
  ghost predicate IsInfix(s: string, t: string)
  {
    exists i, j | 0 <= i <= j <= |t| :: t[i..j] == s
  }

  lemma InfixOfTail(s: string, t: string)
    requires t != [] && !(s <= t)
    ensures IsInfix(s, t) <==> IsInfix(s, t[1..])
  {
    if IsInfix(s, t) {
      var i, j :| 0 <= i <= j <= |t| && t[i..j] == s;
      assert i == 0 ==> s <= t by { assert t[..j] == t[0..j]; }
      assert t[1..][i - 1..j - 1] == s;
    }
    if IsInfix(s, t[1..]) {
      var i, j :| 0 <= i <= j <= |t[1..]| && t[1..][i..j] == s;
      assert t[i + 1..j + 1] == s;
    }
  }

  /** Python's `s in t` on two strings: a substring test, true for the empty `s`. */
  function Contains(t: string, s: string): (b: bool)
    ensures b <==> IsInfix(s, t)
    decreases |t|
  {
    if s <= t then
      assert t[0..|s|] == s;
      true
    else if t == [] then
      false
    else
      InfixOfTail(s, t);
      Contains(t[1..], s)
  }

  // ---------------------------------------------------------------------------
  // The input row and the decision table
  // ---------------------------------------------------------------------------

  /**
   * A data row of a Meria export, already split into its 12 columns. The fee
   * column (column 9) is given as the percentage it parses to.
   */
  datatype MeriaRow = MeriaRow(
    hash: string,
    txType: string,
    sourceAmount: string, sourceCurrency: string,
    destinationAmount: string, destinationCurrency: string,
    address: string, memo: string, destinationType: string,
    feePercent: real,
    txInfo: string,
    date: string)

  /** The diagnostic printed for a row the converter has no rule for. */
  datatype Diagnostic =
    | UnhandledTxInfo(txType: string, txInfo: string)
    | UnhandledTxType(txType: string)

  /** How a row is handled, by its `txType` and `txInfo`. */
  datatype Handling = Receive | Claim | Send | Swap | Withdraw | UnknownInfo | UnknownType
  {
    /** The row becomes a value movement. */
    predicate Handled() { Receive? || Send? || Swap? || Withdraw? }
    predicate FillsSent() { Send? || Swap? || Withdraw? }
    predicate FillsReceived() { Receive? || Swap? }
  }

  /** The decision table on (`txType`, `txInfo`). */
  function Classify(txType: string, txInfo: string): Handling
  {
    match txType
    case "credit" =>
      if txInfo in CreditInfos then Receive
      else if Contains("claim", txInfo) then Claim
      else UnknownInfo
    case "debit" => if txInfo in DebitInfos then Send else UnknownInfo
    case "exchange" => if txInfo == "" then Swap else UnknownInfo
    case "withdraw" => if txInfo == "" then Withdraw else UnknownInfo
    case _ => UnknownType
  }

  function FeeMultiplier(row: MeriaRow): real
  {
    row.feePercent / 100.0
  }

  /** The label a handled row carries. */
  function LabelOf(h: Handling, txInfo: string, receivedCurrency: string): Option<string>
  {
    match h
    case Receive =>
      if txInfo in {"airdrop", "reward"} then Some(txInfo)
      else if txInfo in {"unstaking", "resale"} then Some("unstake")
      else if receivedCurrency == FiatBaseCurrency then Some("liquidity in")
      else None
    case Send => if txInfo == "order" then Some("cost") else Some("stake")
    case Swap => Some("swap")
    case _ => None
  }

  /**
   * The line a row converts to. `formatFee(m, a)` stands for the text of
   * `m * float(a)`: the fee amount at multiplier `m` on the amount `a`.
   */
  function MeriaLine(row: MeriaRow, formatFee: (real, string) -> string): OutputLine
  {
    var h := Classify(row.txType, row.txInfo);
    // a credit is charged on what it brings in, everything else on what it takes out
    var (feeBase, feeBaseCurrency) :=
      if h.Receive? then (row.destinationAmount, row.destinationCurrency)
      else (row.sourceAmount, row.sourceCurrency);
    var charged := h.Handled() && FeeMultiplier(row) > 0.0;
    OutputLine(
      txDate := row.date,
      sentAmount := if h.FillsSent() then Some(row.sourceAmount) else None,
      sentCurrency := NormalizeLunaTicker(if h.FillsSent() then Some(row.sourceCurrency) else None),
      receivedAmount := if h.FillsReceived() then Some(row.destinationAmount) else None,
      receivedCurrency :=
        NormalizeLunaTicker(if h.FillsReceived() then Some(row.destinationCurrency) else None),
      feeAmount := if charged then Some(formatFee(FeeMultiplier(row), feeBase)) else None,
      feeCurrency := NormalizeLunaTicker(if charged then Some(feeBaseCurrency) else None),
      txLabel := LabelOf(h, row.txInfo, row.destinationCurrency),
      description :=
        if h.Withdraw? then Some(row.destinationType + " " + row.address + " " + row.memo) else None,
      txHash := if row.hash == "n/a" then None else Some(row.hash))
  }

  /** The diagnostic a row causes, if any. */
  function RowDiagnostic(row: MeriaRow): Option<Diagnostic>
  {
    match Classify(row.txType, row.txInfo)
    case UnknownInfo => Some(UnhandledTxInfo(row.txType, row.txInfo))
    case UnknownType => Some(UnhandledTxType(row.txType))
    case _ => None
  }

  /** The diagnostics of a run, in row order. */
  function Diagnostics(rows: seq<MeriaRow>): seq<Diagnostic>
  {
    if rows == [] then []
    else
      var last := RowDiagnostic(rows[|rows| - 1]);
      Diagnostics(rows[..|rows| - 1]) + if last.Some? then [last.value] else []
  }

  // ---------------------------------------------------------------------------
  // The converter
  // ---------------------------------------------------------------------------

  /** The body of the converter's loop: one row to one line, plus its diagnostic. */
  method ConvertRow(row: MeriaRow, formatFee: (real, string) -> string)
    returns (line: OutputLine, diagnostic: Option<Diagnostic>)
    ensures line == MeriaLine(row, formatFee)
    ensures diagnostic == RowDiagnostic(row)
  {
    var txHash := if row.hash != "n/a" then Some(row.hash) else None;
    var txType, txInfo := row.txType, row.txInfo;
    var feeMultiplier := row.feePercent / 100.0;

    var sentAmount: Option<string> := None;
    var sentCurrency: Option<string> := None;
    var receivedAmount: Option<string> := None;
    var receivedCurrency: Option<string> := None;
    var feeAmount: Option<string> := None;
    var feeCurrency: Option<string> := None;
    var lineLabel: Option<string> := None;
    var description: Option<string> := None;
    diagnostic := None;

    if txType == "credit" {
      if txInfo in CreditInfos {
        receivedAmount := Some(row.destinationAmount);
        receivedCurrency := Some(row.destinationCurrency);
        if feeMultiplier > 0.0 {
          feeAmount := Some(formatFee(feeMultiplier, row.destinationAmount));
          feeCurrency := receivedCurrency;
        }
        lineLabel :=
          if txInfo in {"airdrop", "reward"} then Some(txInfo)
          else if txInfo in {"unstaking", "resale"} then Some("unstake")
          else if receivedCurrency == Some(FiatBaseCurrency) then Some("liquidity in")
          else None;
      } else if Contains("claim", txInfo) {
        // nothing to record
      } else {
        diagnostic := Some(UnhandledTxInfo(txType, txInfo));
      }
    } else if txType == "debit" {
      if txInfo in DebitInfos {
        sentAmount := Some(row.sourceAmount);
        sentCurrency := Some(row.sourceCurrency);
        if feeMultiplier > 0.0 {
          feeAmount := Some(formatFee(feeMultiplier, row.sourceAmount));
          feeCurrency := sentCurrency;
        }
        lineLabel :=
          if txInfo in {"masternode", "reinvestment", "staking"} then Some("stake")
          else if Contains("order", txInfo) then Some("cost")
          else None;
      } else {
        diagnostic := Some(UnhandledTxInfo(txType, txInfo));
      }
    } else if txType == "exchange" {
      if txInfo == "" {
        sentAmount := Some(row.sourceAmount);
        sentCurrency := Some(row.sourceCurrency);
        receivedAmount := Some(row.destinationAmount);
        receivedCurrency := Some(row.destinationCurrency);
        if feeMultiplier > 0.0 {
          feeAmount := Some(formatFee(feeMultiplier, row.sourceAmount));
          feeCurrency := sentCurrency;
        }
        lineLabel := Some("swap");
      } else {
        diagnostic := Some(UnhandledTxInfo(txType, txInfo));
      }
    } else if txType == "withdraw" {
      if txInfo == "" {
        sentAmount := Some(row.sourceAmount);
        sentCurrency := Some(row.sourceCurrency);
        if feeMultiplier > 0.0 {
          feeAmount := Some(formatFee(feeMultiplier, row.sourceAmount));
          feeCurrency := sentCurrency;
        }
        description := Some(row.destinationType + " " + row.address + " " + row.memo);
        lineLabel := None;
      } else {
        diagnostic := Some(UnhandledTxInfo(txType, txInfo));
      }
    } else {
      diagnostic := Some(UnhandledTxType(txType));
    }

    line := OutputLine(
      txDate := row.date,
      sentAmount := sentAmount, sentCurrency := NormalizeLunaTicker(sentCurrency),
      receivedAmount := receivedAmount, receivedCurrency := NormalizeLunaTicker(receivedCurrency),
      feeAmount := feeAmount, feeCurrency := NormalizeLunaTicker(feeCurrency),
      txLabel := lineLabel,
      description := description,
      txHash := txHash);
  }

  /**
   * Converts the data rows of a Meria export: exactly one line per row, in
   * row order, unhandled rows included; the diagnostics come out in row order.
   */
  method ConvertMeria(rows: seq<MeriaRow>, formatFee: (real, string) -> string)
    returns (lines: seq<OutputLine>, diagnostics: seq<Diagnostic>)
    ensures |lines| == |rows|
    ensures forall i | 0 <= i < |rows| :: lines[i] == MeriaLine(rows[i], formatFee)
    ensures diagnostics == Diagnostics(rows)
  {
    lines, diagnostics := [], [];
    for i := 0 to |rows|
      invariant |lines| == i
      invariant forall k | 0 <= k < i :: lines[k] == MeriaLine(rows[k], formatFee)
      invariant diagnostics == Diagnostics(rows[..i])
    {
      var line, diagnostic := ConvertRow(rows[i], formatFee);
      lines := lines + [line];
      if diagnostic.Some? {
        diagnostics := diagnostics + [diagnostic.value];
      }
      assert rows[..i + 1][..i] == rows[..i];
    }
    assert rows[..|rows|] == rows;
  }

  // ---------------------------------------------------------------------------
  // Properties of the conversion
  // ---------------------------------------------------------------------------

  /** The date is copied verbatim; the hash is copied verbatim unless it is "n/a", which becomes absent. */
  lemma LineDateAndHash(row: MeriaRow, formatFee: (real, string) -> string)
    ensures MeriaLine(row, formatFee).txDate == row.date
    ensures MeriaLine(row, formatFee).txHash.None? <==> row.hash == "n/a"
    ensures MeriaLine(row, formatFee).txHash.Some? ==> MeriaLine(row, formatFee).txHash.value == row.hash
  {
  }

  /**
   * The three currency fields never hold "LUNA": a "LUNA" on a filled side
   * becomes "LUNA2", any other currency is copied; no other field is renamed
   * and the net-worth fields stay absent.
   */
  lemma LineCurrenciesNormalized(row: MeriaRow, formatFee: (real, string) -> string)
    ensures var line := MeriaLine(row, formatFee);
      line.sentCurrency != Some("LUNA") && line.receivedCurrency != Some("LUNA")
      && line.feeCurrency != Some("LUNA")
    ensures var line := MeriaLine(row, formatFee);
      line.sentCurrency.Some? ==> line.sentCurrency == NormalizeLunaTicker(Some(row.sourceCurrency))
    ensures var line := MeriaLine(row, formatFee);
      line.receivedCurrency.Some? ==>
        line.receivedCurrency == NormalizeLunaTicker(Some(row.destinationCurrency))
    ensures var line := MeriaLine(row, formatFee);
      line.sentAmount.Some? ==> line.sentAmount == Some(row.sourceAmount)
    ensures var line := MeriaLine(row, formatFee);
      line.receivedAmount.Some? ==> line.receivedAmount == Some(row.destinationAmount)
    ensures var line := MeriaLine(row, formatFee);
      line.netWorthAmount.None? && line.netWorthCurrency.None?
  {
  }

  /**
   * A credit of a handled kind fills only the received side, from the
   * destination columns, and is labelled by its kind (or by the currency).
   */
  lemma CreditLine(row: MeriaRow, formatFee: (real, string) -> string)
    requires row.txType == "credit" && row.txInfo in CreditInfos
    ensures var line := MeriaLine(row, formatFee);
      line.receivedAmount == Some(row.destinationAmount)
      && line.receivedCurrency == NormalizeLunaTicker(Some(row.destinationCurrency))
      && line.sentAmount.None? && line.sentCurrency.None? && line.description.None?
    ensures var line := MeriaLine(row, formatFee);
      line.txLabel ==
        if row.txInfo == "airdrop" || row.txInfo == "reward" then Some(row.txInfo)
        else if row.txInfo == "unstaking" || row.txInfo == "resale" then Some("unstake")
        else if row.destinationCurrency == "EUR" then Some("liquidity in")
        else None
    ensures RowDiagnostic(row).None?
  {
  }

  /** A debit of a handled kind fills only the sent side; it is a stake, or a cost for an order. */
  lemma DebitLine(row: MeriaRow, formatFee: (real, string) -> string)
    requires row.txType == "debit" && row.txInfo in DebitInfos
    ensures var line := MeriaLine(row, formatFee);
      line.sentAmount == Some(row.sourceAmount)
      && line.sentCurrency == NormalizeLunaTicker(Some(row.sourceCurrency))
      && line.receivedAmount.None? && line.receivedCurrency.None? && line.description.None?
    ensures MeriaLine(row, formatFee).txLabel == if row.txInfo == "order" then Some("cost") else Some("stake")
    ensures RowDiagnostic(row).None?
  {
  }

  /** An exchange with empty `txInfo` fills both sides and is a swap. */
  lemma ExchangeLine(row: MeriaRow, formatFee: (real, string) -> string)
    requires row.txType == "exchange" && row.txInfo == ""
    ensures var line := MeriaLine(row, formatFee);
      line.sentAmount == Some(row.sourceAmount)
      && line.sentCurrency == NormalizeLunaTicker(Some(row.sourceCurrency))
      && line.receivedAmount == Some(row.destinationAmount)
      && line.receivedCurrency == NormalizeLunaTicker(Some(row.destinationCurrency))
      && line.txLabel == Some("swap") && line.description.None?
    ensures RowDiagnostic(row).None?
  {
  }

  /**
   * A withdrawal with empty `txInfo` fills only the sent side, has no label,
   * and is described by destination type, address and memo.
   */
  lemma WithdrawLine(row: MeriaRow, formatFee: (real, string) -> string)
    requires row.txType == "withdraw" && row.txInfo == ""
    ensures var line := MeriaLine(row, formatFee);
      line.sentAmount == Some(row.sourceAmount)
      && line.sentCurrency == NormalizeLunaTicker(Some(row.sourceCurrency))
      && line.receivedAmount.None? && line.receivedCurrency.None? && line.txLabel.None?
    ensures MeriaLine(row, formatFee).description
      == Some(row.destinationType + " " + row.address + " " + row.memo)
    ensures RowDiagnostic(row).None?
  {
  }

  /**
   * A fee is recorded exactly for handled rows with a positive fee
   * percentage; it is in the received currency for a credit and in the sent
   * currency otherwise.
   */
  lemma FeeRule(row: MeriaRow, formatFee: (real, string) -> string)
    ensures var line := MeriaLine(row, formatFee);
      line.feeCurrency.Some? <==> Classify(row.txType, row.txInfo).Handled() && row.feePercent > 0.0
    ensures var line := MeriaLine(row, formatFee);
      line.feeAmount.Some? <==> line.feeCurrency.Some?
    ensures var line := MeriaLine(row, formatFee);
      line.feeCurrency.Some? && row.txType == "credit" ==> line.feeCurrency == line.receivedCurrency
    ensures var line := MeriaLine(row, formatFee);
      line.feeCurrency.Some? && row.txType != "credit" ==> line.feeCurrency == line.sentCurrency
  {
  }

  /** A handled row moves value: at least one side of its line is filled, with amount and currency together. */
  lemma HandledLineMovesValue(row: MeriaRow, formatFee: (real, string) -> string)
    requires Classify(row.txType, row.txInfo).Handled()
    ensures var line := MeriaLine(row, formatFee);
      line.sentAmount.Some? || line.receivedAmount.Some?
    ensures var line := MeriaLine(row, formatFee);
      (line.sentAmount.Some? <==> line.sentCurrency.Some?)
      && (line.receivedAmount.Some? <==> line.receivedCurrency.Some?)
  {
  }

  /**
   * A row with no rule, or a credit "claim" row, still yields a line, but one
   * carrying only its date and hash; only the former is reported.
   */
  lemma UnhandledLineIsBare(row: MeriaRow, formatFee: (real, string) -> string)
    requires !Classify(row.txType, row.txInfo).Handled()
    ensures var line := MeriaLine(row, formatFee);
      line.sentAmount.None? && line.sentCurrency.None?
      && line.receivedAmount.None? && line.receivedCurrency.None?
      && line.feeAmount.None? && line.feeCurrency.None?
      && line.txLabel.None? && line.description.None?
    ensures var line := MeriaLine(row, formatFee);
      line.txDate == row.date && line.txHash == (if row.hash == "n/a" then None else Some(row.hash))
    ensures RowDiagnostic(row).Some? <==> !Classify(row.txType, row.txInfo).Claim?
  {
  }

  /**
   * The claim test is a substring test on "claim": every credit whose
   * `txInfo` is a piece of "claim" -- the empty string and "cl" among them --
   * is silently turned into a bare line.
   */
  lemma {:induction false} ClaimIsSubstringTest(row: MeriaRow)
    requires row.txType == "credit" && IsInfix(row.txInfo, "claim")
    ensures Classify(row.txType, row.txInfo).Claim?
    ensures RowDiagnostic(row).None?
  {
    var i, j :| 0 <= i <= j <= 5 && "claim"[i..j] == row.txInfo;
    assert |row.txInfo| <= 5;
    // "order" is the only handled credit info short enough, and "claim" has no 'o'
    assert |row.txInfo| == 5 ==> row.txInfo[0] == "claim"[i] != 'o';
    assert row.txInfo != "order";
  }

  /** The empty `txInfo` and "cl" on a credit row are accepted without a diagnostic. */
  lemma EmptyAndClCreditsAreClaims(row: MeriaRow)
    requires row.txType == "credit" && (row.txInfo == "" || row.txInfo == "cl")
    ensures Classify(row.txType, row.txInfo).Claim? && RowDiagnostic(row).None?
  {
  }
}
