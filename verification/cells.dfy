/** The spreadsheet grid the parser receives (`sheet_to_json` with
    `header: 1`): rows of cells, each a string, a number, a boolean or
    empty; and the two ways the parser reads a cell, as text and as a
    number (`getValue`). */
module Cells {
  import opened Wrappers
  import opened Strings

  /** A cell; `Blank` stands for both `null` and `undefined`. */
  datatype Cell = Blank | Str(s: string) | Num(n: real) | Bool(b: bool)

  type Row = seq<Cell>

  type Grid = seq<Row>

  /** `row[i]`, which is `undefined` outside the row. */
  function CellAt(row: Row, i: int): Cell {
    if 0 <= i < |row| then row[i] else Blank
  }

  /** `String(c || '')`: the falsy cells (empty, "", 0 and false) read as "". */
  function CellText(c: Cell): string {
    match c
    case Blank => ""
    case Str(s) => s
    case Num(n) => if n == 0.0 then "" else NumberText(n)
    case Bool(b) => if b then "true" else ""
  }

  /** `String(b)` for a boolean. */
  function BoolText(b: bool): string {
    if b then "true" else "false"
  }

  /** `getValue(colIndex)` of dataParser.ts: an absent column, a column
      outside the row and an empty cell give 0; a number is returned as it
      is; anything else is read by `parseFloat` after every character but
      digits, '.' and '-' is removed, and a reading that finds no number
      (NaN) gives 0. */
  function GetValue(row: Row, col: Option<int>): real {
    if col.None? || col.value < 0 || col.value >= |row| then 0.0
    else
      match row[col.value]
      case Blank => 0.0
      case Num(n) => n
      case Str(s) => if s == "" then 0.0 else ParseFloat(KeepNumeric(s)).GetOr(0.0)
      case Bool(b) => ParseFloat(KeepNumeric(BoolText(b))).GetOr(0.0)
  }

  /** The cases `getValue` answers 0 without reading the cell, and the number
      it returns unchanged. */
  lemma GetValueCases(row: Row, col: Option<int>)
    ensures col.None? ==> GetValue(row, col) == 0.0
    ensures col.Some? && (col.value < 0 || col.value >= |row|) ==> GetValue(row, col) == 0.0
    ensures col.Some? && 0 <= col.value < |row| && row[col.value] in {Blank, Str("")} ==> GetValue(row, col) == 0.0
    ensures col.Some? && 0 <= col.value < |row| && row[col.value].Num? ==> GetValue(row, col) == row[col.value].n
    ensures col.Some? && 0 <= col.value < |row| && row[col.value].Bool? ==> GetValue(row, col) == 0.0
  {
    if col.Some? && 0 <= col.value < |row| && row[col.value].Bool? {
      var t := BoolText(row[col.value].b);
      assert KeepNumeric(t) == "" by {
        assert forall i :: 0 <= i < |t| ==> !IsDigit(t[i]) && t[i] != '.' && t[i] != '-';
        KeepNumericNone(t);
      }
    }
  }

  /** Removing the non-numeric characters works piece by piece. */
  lemma {:induction false} KeepNumericAppend(a: string, b: string)
    ensures KeepNumeric(a + b) == KeepNumeric(a) + KeepNumeric(b)
    decreases |a|
  {
    if a != [] {
      assert (a + b)[0] == a[0];
      assert (a + b)[1..] == a[1..] + b;
      KeepNumericAppend(a[1..], b);
    } else {
      assert a + b == b;
    }
  }

  /** A text with no digit, point or minus sign is removed entirely. */
  lemma {:induction false} KeepNumericNone(s: string)
    requires forall i :: 0 <= i < |s| ==> !IsDigit(s[i]) && s[i] != '.' && s[i] != '-'
    ensures KeepNumeric(s) == ""
    decreases |s|
  {
    if s != [] {
      KeepNumericNone(s[1..]);
    }
  }

  /** A text cell holding an integer with words or separators around it,
      such as "about 12 visits", reads as that integer. */
  lemma GetValueOfLabelledInt(row: Row, col: int, before: string, i: int, after: string)
    requires 0 <= col < |row|
    requires row[col] == Str(before + IntText(i) + after)
    requires forall k :: 0 <= k < |before| ==> !IsDigit(before[k]) && before[k] != '.' && before[k] != '-'
    requires forall k :: 0 <= k < |after| ==> !IsDigit(after[k]) && after[k] != '.' && after[k] != '-'
    ensures GetValue(row, Some(col)) == i as real
  {
    KeepNumericAppend(before + IntText(i), after);
    KeepNumericAppend(before, IntText(i));
    KeepNumericNone(before);
    KeepNumericNone(after);
    assert KeepNumeric(before + IntText(i) + after) == KeepNumeric(IntText(i));
    ParseFloatOfIntText(i);
    assert before + IntText(i) + after != "" by {
      assert |IntText(i)| > 0;
    }
  }
}
