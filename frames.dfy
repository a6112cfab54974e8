/**
  One-row data frames and the column aligner.

  The prediction form produces a single row. A frame here is that row: the
  ordered column labels and the cell under each label. The aligner turns
  the encoded record into exactly the columns the model was trained on:
  it one-hot expands the nominal fields, adds every training column that is
  still absent with value 0, and projects onto the training columns in
  their order, dropping every other column.
*/
module Frames {

  /** A one-row frame: column labels in order, and the cell of each label. */
  datatype Frame<T> = Frame(columns: seq<string>, cells: map<string, T>)

  /** Every listed column has a cell and every cell is listed. */
  ghost predicate WellFormed<T>(f: Frame<T>) {
    forall c :: c in f.columns <==> c in f.cells
  }

  /* ---------------------------------------------------------------------
     Column names of the indicator columns
     --------------------------------------------------------------------- */

  /** The character of decimal digit `d`. */
  function DigitChar(d: int): (ch: char)
    requires 0 <= d < 10
    ensures ch == "0123456789"[d]
  {
    (48 + d) as char
  }

  /** The number a string of decimal digits stands for, most significant
      digit first; the reading side of `Digits`. */
  function DigitsValue(s: string): int
    decreases |s|
  {
    if s == [] then 0 else 10 * DigitsValue(s[..|s| - 1]) + (s[|s| - 1] as int - 48)
  }

  /** The decimal digits of a natural number, as Python's str() prints them:
      no leading zero, and reading them back gives the number. */
  function Digits(n: nat): (s: string)
    ensures |s| >= 1
    ensures n < 10 <==> |s| == 1
    ensures forall i | 0 <= i < |s| :: '0' <= s[i] <= '9'
    ensures |s| > 1 ==> s[0] != '0'
    ensures DigitsValue(s) == n
  {
    if n < 10 then [DigitChar(n)]
    else
      var init := Digits(n / 10);
      var s := init + [DigitChar(n % 10)];
      assert s[..|s| - 1] == init;
      s
  }

  /** Reads back the text of an integer: an optional minus sign, then digits. */
  function ParseDecimal(s: string): int {
    if |s| > 0 && s[0] == '-' then -DigitsValue(s[1..]) else DigitsValue(s)
  }

  /** Python's str() of an integer: a minus sign exactly for a negative
      number, then its digits without a leading zero; reading it back gives
      the number. */
  function DecimalString(n: int): (s: string)
    ensures |s| >= 1 && (s[0] == '-' <==> n < 0)
    ensures var k := if n < 0 then 1 else 0;
      && |s| > k
      && (forall i | k <= i < |s| :: '0' <= s[i] <= '9')
      && (|s| > k + 1 ==> s[k] != '0')
    ensures ParseDecimal(s) == n
  {
    if n < 0 then
      var s := "-" + Digits(-n);
      assert s[1..] == Digits(-n);
      s
    else Digits(n)
  }

  /** The label get_dummies gives the indicator of `value` in column `field`:
      the field name, an underscore, and the value as Python prints it. */
  function IndicatorName(field: string, value: int): (name: string)
    ensures |name| > |field| && name[..|field|] == field && name[|field|] == '_'
  {
    field + "_" + DecimalString(value)
  }

  /** After the field name and the underscore, an indicator label is the
      value's decimal text, and reading that text back gives the value. */
  lemma IndicatorNameReadsBack(field: string, value: int)
    ensures var name := IndicatorName(field, value);
      && name[|field| + 1..] == DecimalString(value)
      && ParseDecimal(name[|field| + 1..]) == value
  {
    assert IndicatorName(field, value)[|field| + 1..] == DecimalString(value);
  }

  /** Two indicators of one field have the same label only for one value. */
  lemma IndicatorNameInjective(field: string, v: int, w: int)
    requires IndicatorName(field, v) == IndicatorName(field, w)
    ensures v == w
  {
    IndicatorNameReadsBack(field, v);
    IndicatorNameReadsBack(field, w);
  }

  /** The indicator labels of the two expanded fields over their code ranges. */
  lemma IndicatorLabels()
    ensures IndicatorName("Age_Profile", 1) == "Age_Profile_1"
    ensures IndicatorName("Age_Profile", 2) == "Age_Profile_2"
    ensures IndicatorName("Age_Profile", 3) == "Age_Profile_3"
    ensures IndicatorName("Age_Profile", 4) == "Age_Profile_4"
    ensures IndicatorName("BusinessTravel", 1) == "BusinessTravel_1"
    ensures IndicatorName("BusinessTravel", 2) == "BusinessTravel_2"
    ensures IndicatorName("BusinessTravel", 3) == "BusinessTravel_3"
  {
  }

  /* ---------------------------------------------------------------------
     pandas operations on a one-row frame
     --------------------------------------------------------------------- */

  /** The columns of `columns`, in order, that are not in `drop`. */
  function Without(columns: seq<string>, drop: seq<string>): (kept: seq<string>)
    ensures forall c :: c in kept <==> c in columns && c !in drop
  {
    if columns == [] then []
    else if columns[0] in drop then Without(columns[1..], drop)
    else [columns[0]] + Without(columns[1..], drop)
  }

  /** The indicator column each expanded field gets for its current value. */
  function Indicators(data: Frame<int>, fields: seq<string>): (names: seq<string>)
    requires forall f | f in fields :: f in data.cells
    ensures |names| == |fields|
    ensures forall i | 0 <= i < |fields| :: names[i] == IndicatorName(fields[i], data.cells[fields[i]])
  {
    seq(|fields|, i requires 0 <= i < |fields| => IndicatorName(fields[i], data.cells[fields[i]]))
  }

  /** `pd.get_dummies(data, columns=fields)` on one row: every expanded field
      is removed and replaced by the indicator of its value, set to 1; the
      other columns keep their order and come first. */
  function GetDummies(data: Frame<int>, fields: seq<string>): (r: Frame<int>)
    requires WellFormed(data)
    requires forall f | f in fields :: f in data.cells
    ensures WellFormed(r)
    ensures r.columns == Without(data.columns, fields) + Indicators(data, fields)
    ensures forall c :: c in r.cells <==>
              (c in data.cells && c !in fields) || c in Indicators(data, fields)
    ensures forall c | c in Indicators(data, fields) :: r.cells[c] == 1
    ensures forall c | c in data.cells && c !in fields && c !in Indicators(data, fields) ::
              r.cells[c] == data.cells[c]
  {
    var kept := Without(data.columns, fields);
    var indicators := Indicators(data, fields);
    Frame(kept + indicators,
          map c | c in kept + indicators :: if c in indicators then 1 else data.cells[c])
  }

  /** `df[name] = value`: overwrites the cell of an existing column, or
      appends a new column at the end. */
  function SetColumn<T>(f: Frame<T>, name: string, value: T): (r: Frame<T>)
    requires WellFormed(f)
    ensures WellFormed(r)
    ensures r.cells == f.cells[name := value]
    ensures r.columns == if name in f.cells then f.columns else f.columns + [name]
  {
    if name in f.cells then Frame(f.columns, f.cells[name := value])
    else Frame(f.columns + [name], f.cells[name := value])
  }

  /** `df[columns]`: the frame restricted to `columns`, in that order. pandas
      raises KeyError for an absent column, so every one must be present. */
  function Select<T>(f: Frame<T>, columns: seq<string>): (r: Frame<T>)
    requires forall c | c in columns :: c in f.cells
    ensures WellFormed(r) && r.columns == columns
    ensures forall c | c in r.cells :: c in f.cells && r.cells[c] == f.cells[c]
  {
    Frame(columns, map c | c in columns :: f.cells[c])
  }

  /** The row as the array of numbers handed to the model, in column order. */
  function Vector(f: Frame<int>): (v: seq<int>)
    requires WellFormed(f)
    ensures |v| == |f.columns|
    ensures forall i | 0 <= i < |v| :: v[i] == f.cells[f.columns[i]]
  {
    seq(|f.columns|, i requires 0 <= i < |f.columns| => f.cells[f.columns[i]])
  }

  /* ---------------------------------------------------------------------
     The column aligner
     --------------------------------------------------------------------- */

  /** One-hot expands `fields`, adds each training column still missing with
      value 0 (in whatever order the set of missing columns yields them), and
      projects onto the training columns. The result has exactly the training
      columns in training order; a column the expansion produced keeps its
      value, every other training column is 0, and nothing else remains. */
  method OneHotEncodeInput(data: Frame<int>, fields: seq<string>, columns: seq<string>)
    returns (aligned: Frame<int>)
    requires WellFormed(data)
    requires forall f | f in fields :: f in data.cells
    ensures WellFormed(aligned) && aligned.columns == columns
    ensures forall c | c in columns ::
              var expanded := GetDummies(data, fields);
              aligned.cells[c] == if c in expanded.cells then expanded.cells[c] else 0
  {
    var encoded := GetDummies(data, fields);
    ghost var expanded := encoded;
    var missing := (set c | c in columns) - encoded.cells.Keys;
    while missing != {}
      invariant WellFormed(encoded)
      invariant forall c | c in columns :: c in encoded.cells || c in missing
      invariant forall c | c in missing :: c !in encoded.cells
      invariant forall c | c in expanded.cells :: c in encoded.cells && encoded.cells[c] == expanded.cells[c]
      invariant forall c | c in encoded.cells && c !in expanded.cells :: encoded.cells[c] == 0
      decreases missing
    {
      var col :| col in missing;
      encoded := SetColumn(encoded, col, 0);
      missing := missing - {col};
    }
    aligned := Select(encoded, columns);
  }
}
