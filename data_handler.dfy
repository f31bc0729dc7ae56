/**
 * The row filter that prepares a bid-history spreadsheet for analysis, after
 * it has been read: the required-column check, numeric coercion of the base
 * amount and winning bid, removal of rows missing a required value, removal
 * of rows whose base amount is not positive, and the derived win-rate column.
 */
module DataHandler {
  import opened Wrappers

  const BaseColumn := "기초금액"        // base amount
  const WinningBidColumn := "낙찰가"    // winning bid
  const BidderColumn := "입찰자상호"    // bidder name
  const WinRateColumn := "낙찰률"       // derived win rate
  const RequiredColumns := [BaseColumn, WinningBidColumn, BidderColumn]

  /** A spreadsheet cell as read: a number, a piece of text, or empty (NaN). */
  datatype Cell = Number(x: real) | Text(s: string) | Blank

  /**
   * One spreadsheet row. `bidder` is None when the cell is empty; `winRate`
   * is the win-rate column, None while the frame has no such column;
   * `others` are the cells of every other column, carried along untouched.
   */
  datatype Row = Row(bidder: Option<string>, base: Cell, winningBid: Cell, winRate: Option<real>, others: seq<Cell>)

  /** A frame as the analysis receives it: its column names and its rows. */
  datatype Table = Table(columns: seq<string>, rows: seq<Row>)

  predicate HasRequiredColumns(columns: seq<string>)
  {
    forall c :: c in RequiredColumns ==> c in columns
  }

  // ----- pd.to_numeric(..., errors='coerce') on text -----

  predicate IsDigit(c: char) { '0' <= c <= '9' }

  predicate AllDigits(s: string) { forall i :: 0 <= i < |s| ==> IsDigit(s[i]) }

  function DigitValue(c: char): nat
    requires IsDigit(c)
  {
    (c as int) - ('0' as int)
  }

  /** The natural number written by a string of decimal digits. */
  function DigitsValue(s: string): nat
    requires AllDigits(s)
  {
    if s == [] then 0 else 10 * DigitsValue(s[..|s| - 1]) + DigitValue(s[|s| - 1])
  }

  /** The value of the digits after a decimal point: `"25"` is 0.25. */
  function FractionValue(s: string): real
    requires AllDigits(s)
  {
    if s == [] then 0.0 else ((DigitValue(s[0]) as real) + FractionValue(s[1..])) / 10.0
  }

  /** Position of the first '.', or |s| when there is none. */
  function DotIndex(s: string): (k: nat)
    ensures k <= |s|
    ensures forall i :: 0 <= i < k ==> s[i] != '.'
    ensures k < |s| ==> s[k] == '.'
  {
    if s == [] then 0 else if s[0] == '.' then 0 else 1 + DotIndex(s[1..])
  }

  /**
   * Digits, optionally with one decimal point; the point may begin (".5") or
   * end ("5.") the numeral, but a point alone is no number.
   */
  function ParseUnsigned(s: string): Option<real>
  {
    var k := DotIndex(s);
    if !AllDigits(s[..k]) then None
    else if k == |s| then (if k == 0 then None else Some(DigitsValue(s) as real))
    else if AllDigits(s[k + 1..]) && (k > 0 || k + 1 < |s|) then
      Some((DigitsValue(s[..k]) as real) + FractionValue(s[k + 1..]))
    else None
  }

  /** A decimal numeral with an optional sign; anything else is not a number. */
  function ParseNumber(s: string): Option<real>
  {
    if |s| > 0 && s[0] == '-' then
      match ParseUnsigned(s[1..])
      case Some(v) => Some(-v)
      case None => None
    else if |s| > 0 && s[0] == '+' then ParseUnsigned(s[1..])
    else ParseUnsigned(s)
  }

  /** Decimal digits of a natural number, most significant first. */
  function NatToDigits(n: nat): (s: string)
    ensures AllDigits(s) && |s| > 0
  {
    if n < 10 then [('0' as int + n) as char] else NatToDigits(n / 10) + [('0' as int + n % 10) as char]
  }

  lemma {:induction false} NatToDigitsValue(n: nat)
    ensures DigitsValue(NatToDigits(n)) == n
  {
    if n >= 10 {
      NatToDigitsValue(n / 10);
      var s := NatToDigits(n);
      assert s[..|s| - 1] == NatToDigits(n / 10);
    }
  }

  /** A natural number written in decimal reads back as itself. */
  lemma ParseNumberOfDigits(n: nat)
    ensures ParseNumber(NatToDigits(n)) == Some(n as real)
  {
    var s := NatToDigits(n);
    NatToDigitsValue(n);
    assert forall i :: 0 <= i < |s| ==> s[i] != '.' by {
      assert AllDigits(s);
    }
    NoDotIndex(s);
    assert s[..|s|] == s;
  }

  /** A point may open or close a numeral, as `pd.to_numeric` reads it; a point alone is no number. */
  lemma DecimalPointForms()
    ensures ParseNumber(".5") == Some(0.5)
    ensures ParseNumber("5.") == Some(5.0)
    ensures ParseNumber("-.25") == Some(-0.25)
    ensures ParseNumber(".") == None
  {
    assert ".5"[1..] == "5";
    assert "5."[..1] == "5";
    assert "-.25"[1..] == ".25";
    assert ".25"[1..] == "25";
    assert "25"[1..] == "5";
  }

  lemma {:induction false} NoDotIndex(s: string)
    requires forall i :: 0 <= i < |s| ==> s[i] != '.'
    ensures DotIndex(s) == |s|
  {
    if s != [] {
      NoDotIndex(s[1..]);
    }
  }

  /**
   * Text holding a character that can occur in no numeral (a comma, a unit,
   * a letter) is not a number.
   */
  lemma {:induction false} ForeignCharacterNotNumber(s: string, i: nat)
    requires i < |s| && !IsDigit(s[i]) && s[i] != '.' && s[i] != '-' && s[i] != '+'
    ensures ParseNumber(s) == None
  {
    var t := if |s| > 0 && (s[0] == '-' || s[0] == '+') then s[1..] else s;
    var j := if t == s then i else i - 1;
    assert 0 <= j < |t| && t[j] == s[i];
    ForeignCharacterNotUnsigned(t, j);
  }

  lemma ForeignCharacterNotUnsigned(t: string, j: nat)
    requires j < |t| && !IsDigit(t[j]) && t[j] != '.'
    ensures ParseUnsigned(t) == None
  {
    var k := DotIndex(t);
    if j < k {
      assert t[..k][j] == t[j];
    } else if k + 1 < |t| {
      assert j > k;
      assert t[k + 1..][j - k - 1] == t[j];
    }
  }

  /** `pd.to_numeric(cell, errors='coerce')`: numbers stay, numerals are read, anything else becomes missing. */
  function CoerceCell(c: Cell): Cell
  {
    match c
    case Number(x) => Number(x)
    case Blank => Blank
    case Text(s) =>
      match ParseNumber(s)
      case Some(v) => Number(v)
      case None => Blank
  }

  // ----- the four frame steps, as functions of the rows -----

  function CoerceRow(r: Row): Row
  {
    r.(base := CoerceCell(r.base), winningBid := CoerceCell(r.winningBid))
  }

  /** Lines 24-25: both numeric columns coerced, row by row. */
  function CoerceRows(rows: seq<Row>): (coerced: seq<Row>)
    ensures |coerced| == |rows|
    ensures forall i :: 0 <= i < |rows| ==> coerced[i] == CoerceRow(rows[i])
  {
    if rows == [] then [] else CoerceRows(rows[..|rows| - 1]) + [CoerceRow(rows[|rows| - 1])]
  }

  /** No required value is missing (after coercion, `Text` no longer occurs). */
  predicate Complete(r: Row)
  {
    r.bidder.Some? && r.base.Number? && r.winningBid.Number?
  }

  /** Line 28: `dropna(subset=required_cols)`. */
  function DropIncomplete(rows: seq<Row>): (kept: seq<Row>)
    ensures forall r :: r in kept ==> r in rows && Complete(r)
  {
    if rows == [] then []
    else DropIncomplete(rows[..|rows| - 1]) + (if Complete(rows[|rows| - 1]) then [rows[|rows| - 1]] else [])
  }

  predicate PositiveBase(r: Row)
  {
    r.base.Number? && r.base.x > 0.0
  }

  /** Line 32: keep the rows whose base amount is greater than zero. */
  function KeepPositiveBase(rows: seq<Row>): (kept: seq<Row>)
    ensures forall r :: r in kept ==> r in rows && PositiveBase(r)
  {
    if rows == [] then []
    else KeepPositiveBase(rows[..|rows| - 1]) + (if PositiveBase(rows[|rows| - 1]) then [rows[|rows| - 1]] else [])
  }

  function WithWinRate(r: Row): Row
    requires PositiveBase(r) && r.winningBid.Number?
  {
    r.(winRate := Some(r.winningBid.x / r.base.x))
  }

  /** Line 33: the win-rate column, winning bid over base amount. */
  function AddWinRate(rows: seq<Row>): seq<Row>
    requires forall r :: r in rows ==> PositiveBase(r) && r.winningBid.Number?
  {
    if rows == [] then [] else AddWinRate(rows[..|rows| - 1]) + [WithWinRate(rows[|rows| - 1])]
  }

  function WithWinRateColumn(columns: seq<string>): seq<string>
  {
    if WinRateColumn in columns then columns else columns + [WinRateColumn]
  }

  /** Rows that survive every step: complete after coercion, with a positive base amount. */
  predicate Kept(r: Row)
  {
    Complete(CoerceRow(r)) && PositiveBase(CoerceRow(r))
  }

  /** What a surviving row becomes. */
  function Prepare(r: Row): Row
    requires Kept(r)
  {
    WithWinRate(CoerceRow(r))
  }

  /** The steps of lines 24-33, one after the other. */
  function PreparedRows(rows: seq<Row>): seq<Row>
  {
    AddWinRate(KeepPositiveBase(DropIncomplete(CoerceRows(rows))))
  }

  lemma CoerceRowsSnoc(rows: seq<Row>, r: Row)
    ensures CoerceRows(rows + [r]) == CoerceRows(rows) + [CoerceRow(r)]
  {
    assert (rows + [r])[..|rows|] == rows;
  }

  lemma DropIncompleteSnoc(rows: seq<Row>, r: Row)
    ensures DropIncomplete(rows + [r]) == DropIncomplete(rows) + (if Complete(r) then [r] else [])
  {
    assert (rows + [r])[..|rows|] == rows;
  }

  lemma KeepPositiveBaseSnoc(rows: seq<Row>, r: Row)
    ensures KeepPositiveBase(rows + [r]) == KeepPositiveBase(rows) + (if PositiveBase(r) then [r] else [])
  {
    assert (rows + [r])[..|rows|] == rows;
  }

  lemma AddWinRateSnoc(rows: seq<Row>, r: Row)
    requires forall x :: x in rows ==> PositiveBase(x) && x.winningBid.Number?
    requires PositiveBase(r) && r.winningBid.Number?
    ensures AddWinRate(rows + [r]) == AddWinRate(rows) + [WithWinRate(r)]
  {
    assert (rows + [r])[..|rows|] == rows;
  }

  /** Line 33 row by row: row i of the result is input row i with its win rate set to winning bid / base amount. */
  lemma {:induction false} AddWinRateRowwise(rows: seq<Row>)
    requires forall x :: x in rows ==> PositiveBase(x) && x.winningBid.Number?
    ensures |AddWinRate(rows)| == |rows|
    ensures forall i :: 0 <= i < |rows| ==>
      rows[i] in rows && AddWinRate(rows)[i] == rows[i].(winRate := Some(rows[i].winningBid.x / rows[i].base.x))
  {
    if rows != [] {
      var init := rows[..|rows| - 1];
      assert forall x :: x in init ==> x in rows;
      AddWinRateRowwise(init);
      assert init + [rows[|init|]] == rows;
      AddWinRateSnoc(init, rows[|init|]);
    }
  }

  /**
   * The same rows described one input row at a time: the surviving rows, in
   * their original order, each prepared; nothing else.
   */
  function Survivors(rows: seq<Row>): seq<Row>
  {
    if rows == [] then []
    else Survivors(rows[..|rows| - 1]) + (if Kept(rows[|rows| - 1]) then [Prepare(rows[|rows| - 1])] else [])
  }

  /** The four steps together keep exactly the surviving rows, in order. */
  lemma {:induction false} PreparedRowsAreSurvivors(rows: seq<Row>)
    ensures PreparedRows(rows) == Survivors(rows)
  {
    if rows != [] {
      var init, r := rows[..|rows| - 1], rows[|rows| - 1];
      assert rows == init + [r];
      PreparedRowsAreSurvivors(init);
      var c := CoerceRow(r);
      CoerceRowsSnoc(init, r);
      var dropped := DropIncomplete(CoerceRows(init));
      DropIncompleteSnoc(CoerceRows(init), c);
      var kept := KeepPositiveBase(dropped);
      assert Survivors(rows) == Survivors(init) + (if Kept(r) then [Prepare(r)] else []);
      if Complete(c) {
        KeepPositiveBaseSnoc(dropped, c);
        if PositiveBase(c) {
          AddWinRateSnoc(kept, c);
          assert PreparedRows(rows) == AddWinRate(kept + [c]);
        } else {
          assert KeepPositiveBase(dropped + [c]) == kept + [];
          assert kept + [] == kept;
        }
      } else {
        assert DropIncomplete(CoerceRows(rows)) == dropped + [];
        assert dropped + [] == dropped;
      }
    }
  }

  // ----- what the prepared rows satisfy -----

  /**
   * Every prepared row has a bidder, a numeric winning bid, a base amount
   * greater than zero and a win rate equal to winning bid over base amount.
   */
  lemma {:induction false} SurvivorsWellFormed(rows: seq<Row>)
    ensures forall o :: o in Survivors(rows) ==>
      o.bidder.Some? && o.winningBid.Number? && o.base.Number? && o.base.x > 0.0 &&
      o.winRate == Some(o.winningBid.x / o.base.x)
  {
    if rows != [] {
      SurvivorsWellFormed(rows[..|rows| - 1]);
    }
  }

  /**
   * A prepared row is one input row with its two numeric cells coerced and
   * its win rate set: its bidder and its other columns are those of the
   * input row, and a numeric cell that was already a number is unchanged.
   */
  lemma PrepareKeepsFields(r: Row)
    requires Kept(r)
    ensures Prepare(r).bidder == r.bidder && Prepare(r).others == r.others
    ensures Prepare(r).base == CoerceCell(r.base) && Prepare(r).winningBid == CoerceCell(r.winningBid)
    ensures r.base.Number? ==> Prepare(r).base == r.base
    ensures r.winningBid.Number? ==> Prepare(r).winningBid == r.winningBid
  {
  }

  /**
   * Exactly the surviving input rows appear, prepared: each input row that
   * survives is in the output, and each output row comes from one that does.
   */
  lemma {:induction false} SurvivorsExactly(rows: seq<Row>)
    ensures forall i :: 0 <= i < |rows| && Kept(rows[i]) ==> Prepare(rows[i]) in Survivors(rows)
    ensures forall o :: o in Survivors(rows) ==> exists i :: 0 <= i < |rows| && Kept(rows[i]) && o == Prepare(rows[i])
  {
    if rows != [] {
      var init, r := rows[..|rows| - 1], rows[|rows| - 1];
      SurvivorsExactly(init);
      forall o | o in Survivors(rows)
        ensures exists i :: 0 <= i < |rows| && Kept(rows[i]) && o == Prepare(rows[i])
      {
        if o in Survivors(init) {
          var i :| 0 <= i < |init| && Kept(init[i]) && o == Prepare(init[i]);
          assert rows[i] == init[i];
        } else {
          assert Kept(r) && o == Prepare(rows[|rows| - 1]);
        }
      }
    }
  }

  /** The number of input rows that survive. */
  function KeptCount(rows: seq<Row>): nat
  {
    if rows == [] then 0 else KeptCount(rows[..|rows| - 1]) + (if Kept(rows[|rows| - 1]) then 1 else 0)
  }

  lemma {:induction false} SurvivorsCount(rows: seq<Row>)
    ensures |Survivors(rows)| == KeptCount(rows) <= |rows|
  {
    if rows != [] {
      SurvivorsCount(rows[..|rows| - 1]);
    }
  }

  /**
   * A base amount or winning bid that is text but not a numeral becomes
   * missing, so its row is dropped; an empty cell or a missing bidder drops
   * the row too.
   */
  lemma NonNumericRowDropped(r: Row)
    requires (r.base.Text? && ParseNumber(r.base.s).None?) || (r.winningBid.Text? && ParseNumber(r.winningBid.s).None?)
             || r.base.Blank? || r.winningBid.Blank? || r.bidder.None?
    ensures !Kept(r)
  {
  }

  /** A base amount of zero or less drops the row. */
  lemma NonPositiveBaseDropped(r: Row)
    requires r.base.Number? && r.base.x <= 0.0
    ensures !Kept(r)
  {
  }

  // ----- the frame, changed step by step -----

  /** The frame being cleaned: its columns and its rows, overwritten by each step. */
  class BidFrame {
    var columns: seq<string>
    var rows: seq<Row>

    constructor (columns: seq<string>, rows: seq<Row>)
      ensures this.columns == columns && this.rows == rows
    {
      this.columns := columns;
      this.rows := rows;
    }

    /** Lines 24-25: overwrite the base-amount and winning-bid columns with their numeric coercion. */
    method CoerceNumericColumns()
      modifies this
      ensures columns == old(columns) && rows == CoerceRows(old(rows))
    {
      rows := CoerceRows(rows);
    }

    /** Line 28: drop, in place, the rows missing a required value. */
    method DropIncompleteRows()
      modifies this
      ensures columns == old(columns) && rows == DropIncomplete(old(rows))
    {
      rows := DropIncomplete(rows);
    }

    /** Line 32: keep the rows whose base amount is positive. */
    method KeepPositiveBaseRows()
      modifies this
      ensures columns == old(columns) && rows == KeepPositiveBase(old(rows))
    {
      rows := KeepPositiveBase(rows);
    }

    /** Line 33: add (or overwrite) the win-rate column. */
    method AddWinRateColumn()
      requires forall r :: r in rows ==> PositiveBase(r) && r.winningBid.Number?
      modifies this
      ensures columns == WithWinRateColumn(old(columns)) && rows == AddWinRate(old(rows))
    {
      columns := WithWinRateColumn(columns);
      rows := AddWinRate(rows);
    }
  }

  /**
   * Lines 16-33 of `load_and_prepare_data`, once the spreadsheet has been
   * read: None when a required column is absent, otherwise the frame whose
   * rows are exactly the surviving rows, in their original order.
   */
  method LoadAndPrepareData(columns: seq<string>, rows: seq<Row>) returns (frame: Option<Table>)
    ensures frame.None? <==> !HasRequiredColumns(columns)
    ensures frame.Some? ==> frame.value == Table(WithWinRateColumn(columns), Survivors(rows))
  {
    if !HasRequiredColumns(columns) {
      return None;
    }
    var df := new BidFrame(columns, rows);
    df.CoerceNumericColumns();
    df.DropIncompleteRows();
    df.KeepPositiveBaseRows();
    df.AddWinRateColumn();
    PreparedRowsAreSurvivors(rows);
    return Some(Table(df.columns, df.rows));
  }
}
