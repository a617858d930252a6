/** `load_data` of streamlit_app.py: the population table with a two-row
    header (period, kind) and one region column is reshaped into long-form
    records (region, year, gender, population).

    The functions below state each step of the reshape on values; the method
    `LoadData` performs the same steps one loop at a time, as the source
    rebinds `df` step after step, and is proved to produce `Normalise`. */
module Normaliser {
  import opened Wrappers
  import opened Seqs
  import opened Text
  import opened Decimal

  /** Top-level header of the region column, which is also its flat name. */
  const RegionHeader: string := "행정구역(시군구)별"
  /** Joins period and kind in a flat column name. */
  const KeySeparator: char := '|'

  /** The three kinds of measurement in the second header row ... */
  const TotalKind: string := "총인구수 (명)"
  const MaleKind: string := "남자인구수 (명)"
  const FemaleKind: string := "여자인구수 (명)"
  const RawKinds: seq<string> := [TotalKind, MaleKind, FemaleKind]
  /** ... and the gender labels they are renamed to. */
  const Total: string := "전체"
  const Male: string := "남자"
  const Female: string := "여자"
  const Genders: seq<string> := [Total, Male, Female]

  /** The monthly label that stands for the whole latest year ... */
  const LatestMonth: string := "2025-04"
  const LatestYear: string := "2025"
  /** ... and the earlier months of that year, which are dropped. */
  const SupersededMonths: seq<string> := ["2025-01", "2025-02", "2025-03"]

  /** One column of the raw table: its two header levels (period, kind). */
  type Column = (string, string)

  /** A row of the melted table: region, flat column name, raw cell. */
  datatype MeltedRow = MeltedRow(region: string, key: string, cell: string)

  /** A melted row after the key is split and both halves are relabelled. */
  datatype LabelledRow = LabelledRow(region: string, year: string, gender: string, cell: string)

  /** A row of the normalised table; `None` is pandas' NaN. */
  datatype Record = Record(region: string, year: string, gender: string, population: Option<int>)

  /** Header shapes on which pandas raises instead of returning a table. */
  datatype FormatError =
    | RegionColumns(count: nat)  // `melt(id_vars=...)` needs the region column exactly once
    | SeparatorInLabel           // a label holding '|' splits into more than two parts

  /** Every data row has one cell per column, as `read_csv` delivers it. */
  predicate RowsOfWidth(rows: seq<seq<string>>, width: nat)
  {
    forall i :: 0 <= i < |rows| ==> |rows[i]| == width
  }

  predicate IsRegion(c: Column)
  {
    c.0 == RegionHeader
  }

  function RegionCount(header: seq<Column>): nat
  {
    if header == [] then 0
    else (if IsRegion(header[0]) then 1 else 0) + RegionCount(header[1..])
  }

  /** Where the region column is (the first one, should there be several). */
  function RegionIndex(header: seq<Column>): (r: nat)
    requires RegionCount(header) >= 1
    ensures r < |header| && IsRegion(header[r])
    ensures forall j :: 0 <= j < r ==> !IsRegion(header[j])
  {
    if IsRegion(header[0]) then 0 else 1 + RegionIndex(header[1..])
  }

  predicate SeparatorFree(header: seq<Column>)
  {
    forall j :: 0 <= j < |header| && !IsRegion(header[j]) ==>
      KeySeparator !in header[j].0 && KeySeparator !in header[j].1
  }

  /** The header shape on which `load_data` returns a table. */
  predicate WellFormedHeader(header: seq<Column>)
  {
    RegionCount(header) == 1 && SeparatorFree(header)
  }

  lemma {:induction false} RegionCountTwo(header: seq<Column>, a: nat, b: nat)
    requires a < b < |header| && IsRegion(header[a]) && IsRegion(header[b])
    ensures RegionCount(header) >= 2
  {
    if a == 0 {
      RegionCountPositive(header[1..], b - 1);
    } else {
      RegionCountTwo(header[1..], a - 1, b - 1);
    }
  }

  lemma {:induction false} RegionCountPositive(header: seq<Column>, a: nat)
    requires a < |header| && IsRegion(header[a])
    ensures RegionCount(header) >= 1
  {
    if a > 0 {
      RegionCountPositive(header[1..], a - 1);
    }
  }

  /** With exactly one region column, `RegionIndex` is the only one. */
  lemma RegionUnique(header: seq<Column>, j: nat)
    requires RegionCount(header) == 1 && j < |header|
    ensures IsRegion(header[j]) <==> j == RegionIndex(header)
  {
    var r := RegionIndex(header);
    if IsRegion(header[j]) && j != r {
      if j < r {
        assert false;
      } else {
        RegionCountTwo(header, r, j);
      }
    }
  }

  // ---- lines 15-22: flatten the two header levels ----

  /** The flat name of a column: the region column keeps its name, any
      other becomes "period|kind". */
  function FlatName(c: Column): string
  {
    if IsRegion(c) then RegionHeader else c.0 + [KeySeparator] + c.1
  }

  function Flatten(header: seq<Column>): (names: seq<string>)
  {
    seq(|header|, j requires 0 <= j < |header| => FlatName(header[j]))
  }

  /** Only the region column is flattened to the region name. */
  lemma FlatNameRegion(c: Column)
    ensures FlatName(c) == RegionHeader <==> IsRegion(c)
  {
    if !IsRegion(c) {
      var name := c.0 + [KeySeparator] + c.1;
      assert name[|c.0|] == KeySeparator;
      assert KeySeparator !in RegionHeader;
    }
  }

  // ---- line 24: melt, one value column after the other ----

  /** The melted row for data row `i` and value column `j`. */
  function CellRow(names: seq<string>, rows: seq<seq<string>>, r: nat, i: nat, j: nat): MeltedRow
    requires r < |names| && j < |names| && i < |rows| && RowsOfWidth(rows, |names|)
  {
    MeltedRow(rows[i][r], names[j], rows[i][j])
  }

  /** All data rows for value column `j`, in row order. */
  function ColumnRows(names: seq<string>, rows: seq<seq<string>>, r: nat, j: nat): seq<MeltedRow>
    requires r < |names| && j < |names| && RowsOfWidth(rows, |names|)
  {
    seq(|rows|, i requires 0 <= i < |rows| => CellRow(names, rows, r, i, j))
  }

  /** `melt` restricted to the first `n` columns: every column not named
      like the region column contributes its rows, column after column. */
  function MeltColumns(names: seq<string>, rows: seq<seq<string>>, r: nat, n: nat): seq<MeltedRow>
    requires r < |names| && n <= |names| && RowsOfWidth(rows, |names|)
  {
    if n == 0 then []
    else
      MeltColumns(names, rows, r, n - 1)
      + (if names[n - 1] == RegionHeader then [] else ColumnRows(names, rows, r, n - 1))
  }

  /** The index of value column `j` among value columns ... */
  function Slot(j: nat, r: nat): nat
    requires j != r
  {
    if j < r then j else j - 1
  }

  /** ... and the index of the melted row for (row `i`, column `j`). */
  function MeltPosition(j: nat, r: nat, height: nat, i: nat): nat
    requires j != r
  {
    Slot(j, r) * height + i
  }

  /** How many of the first `n` columns are value columns. */
  function ValueColumns(n: nat, r: nat): nat
  {
    if r < n then n - 1 else n
  }

  lemma MulSucc(a: nat, b: nat)
    ensures (a + 1) * b == a * b + b
  {
  }

  /** Melting yields |rows| rows per value column. */
  lemma {:induction false} MeltLength(names: seq<string>, rows: seq<seq<string>>, r: nat, n: nat)
    requires r < |names| && n <= |names| && RowsOfWidth(rows, |names|)
    requires forall j :: 0 <= j < |names| ==> (names[j] == RegionHeader <==> j == r)
    ensures |MeltColumns(names, rows, r, n)| == ValueColumns(n, r) * |rows|
  {
    if n > 0 {
      MeltLength(names, rows, r, n - 1);
      if n - 1 != r {
        MulSucc(ValueColumns(n - 1, r), |rows|);
      }
    }
  }

  /** The melted row for (row `i`, value column `j`) sits where `melt` puts
      it, value column after value column, and carries the region of row `i`. */
  lemma {:induction false} MeltAt(names: seq<string>, rows: seq<seq<string>>, r: nat, n: nat, i: nat, j: nat)
    requires r < |names| && n <= |names| && RowsOfWidth(rows, |names|)
    requires forall j :: 0 <= j < |names| ==> (names[j] == RegionHeader <==> j == r)
    requires j < n && j != r && i < |rows|
    ensures MeltPosition(j, r, |rows|, i) < |MeltColumns(names, rows, r, n)|
    ensures MeltColumns(names, rows, r, n)[MeltPosition(j, r, |rows|, i)] == CellRow(names, rows, r, i, j)
  {
    var m := n - 1;
    if j < m {
      MeltAt(names, rows, r, m, i, j);
    } else {
      MeltLength(names, rows, r, m);
      assert Slot(j, r) == ValueColumns(m, r);
    }
  }

  /** The melted rows are exactly the (data row, value column) cells. */
  lemma {:induction false} MeltMembers(names: seq<string>, rows: seq<seq<string>>, r: nat, n: nat, x: MeltedRow)
    requires r < |names| && n <= |names| && RowsOfWidth(rows, |names|)
    ensures x in MeltColumns(names, rows, r, n) <==>
      exists i, j :: 0 <= i < |rows| && 0 <= j < n && names[j] != RegionHeader && x == CellRow(names, rows, r, i, j)
  {
    if n > 0 {
      MeltMembers(names, rows, r, n - 1, x);
    }
  }

  // ---- lines 25-32: split the key, rename kinds, canonicalise periods ----

  predicate KeyOk(key: string)
  {
    |Split(key, KeySeparator)| == 2
  }

  /** `replace` with the three kind labels: a known kind becomes its gender
      label, any other kind is passed through unchanged. */
  function MapGender(kind: string): string
  {
    if kind == TotalKind then Total
    else if kind == MaleKind then Male
    else if kind == FemaleKind then Female
    else kind
  }

  /** '.' becomes '-', then the latest month is renamed to its year. */
  function CanonYear(period: string): string
  {
    var dashed := ReplaceChar(period, '.', '-');
    if dashed == LatestMonth then LatestYear else dashed
  }

  function LabelRow(m: MeltedRow): LabelledRow
    requires KeyOk(m.key)
  {
    var parts := Split(m.key, KeySeparator);
    LabelledRow(m.region, CanonYear(parts[0]), MapGender(parts[1]), m.cell)
  }

  function LabelAll(ms: seq<MeltedRow>): seq<LabelledRow>
    requires forall k :: 0 <= k < |ms| ==> KeyOk(ms[k].key)
  {
    seq(|ms|, k requires 0 <= k < |ms| => LabelRow(ms[k]))
  }

  // ---- line 33: drop the superseded months ----

  predicate KeepRow(l: LabelledRow)
  {
    l.year !in SupersededMonths
  }

  function DropSuperseded(ls: seq<LabelledRow>): seq<LabelledRow>
  {
    Filter(KeepRow, ls)
  }

  // ---- lines 34-35: coerce the population, rename the region column ----

  function ToRecord(l: LabelledRow): Record
  {
    Record(l.region, l.year, l.gender, ParseInteger(l.cell))
  }

  function Coerce(ls: seq<LabelledRow>): seq<Record>
  {
    seq(|ls|, k requires 0 <= k < |ls| => ToRecord(ls[k]))
  }

  // ---- the whole of load_data ----

  /** Every melted key of a well-formed header splits into two parts. */
  lemma MeltKeysOk(header: seq<Column>, rows: seq<seq<string>>)
    requires RowsOfWidth(rows, |header|) && WellFormedHeader(header)
    ensures forall k :: 0 <= k < |MeltColumns(Flatten(header), rows, RegionIndex(header), |header|)| ==>
      KeyOk(MeltColumns(Flatten(header), rows, RegionIndex(header), |header|)[k].key)
  {
    var names := Flatten(header);
    var r := RegionIndex(header);
    var melted := MeltColumns(names, rows, r, |header|);
    forall k | 0 <= k < |melted| ensures KeyOk(melted[k].key) {
      MeltMembers(names, rows, r, |header|, melted[k]);
      var i, j :| 0 <= i < |rows| && 0 <= j < |header| && names[j] != RegionHeader
        && melted[k] == CellRow(names, rows, r, i, j);
      FlatNameRegion(header[j]);
      SplitPair(header[j].0, header[j].1, KeySeparator);
    }
  }

  /** The table after line 32: melted, split and relabelled, before the
      superseded months are dropped. */
  function Labelled(header: seq<Column>, rows: seq<seq<string>>): seq<LabelledRow>
    requires RowsOfWidth(rows, |header|) && WellFormedHeader(header)
  {
    MeltKeysOk(header, rows);
    LabelAll(MeltColumns(Flatten(header), rows, RegionIndex(header), |header|))
  }

  /** `load_data()` on the table `read_csv` produced. */
  function Normalise(header: seq<Column>, rows: seq<seq<string>>): (res: Result<seq<Record>, FormatError>)
    requires RowsOfWidth(rows, |header|)
    ensures res.Err? <==> !WellFormedHeader(header)
    ensures res.Ok? ==> |res.value| <= (|header| - 1) * |rows|
  {
    if RegionCount(header) != 1 then Err(RegionColumns(RegionCount(header)))
    else if !SeparatorFree(header) then Err(SeparatorInLabel)
    else
      LabelledLength(header, rows);
      Ok(Coerce(DropSuperseded(Labelled(header, rows))))
  }

  /** The record that data row `i` and value column `j` give rise to. */
  function Expected(header: seq<Column>, rows: seq<seq<string>>, i: nat, j: nat): Record
    requires RowsOfWidth(rows, |header|) && WellFormedHeader(header)
    requires i < |rows| && j < |header|
  {
    Record(rows[i][RegionIndex(header)], CanonYear(header[j].0), MapGender(header[j].1), ParseInteger(rows[i][j]))
  }

  predicate ValueCell(header: seq<Column>, rows: seq<seq<string>>, i: int, j: int)
  {
    0 <= i < |rows| && 0 <= j < |header| && !IsRegion(header[j])
  }

  /** The labelled row for (row `i`, value column `j`): its year and gender
      come from the column's two header levels, its region from the row. */
  lemma LabelCell(header: seq<Column>, rows: seq<seq<string>>, i: nat, j: nat)
    requires RowsOfWidth(rows, |header|) && WellFormedHeader(header) && ValueCell(header, rows, i, j)
    ensures var m := CellRow(Flatten(header), rows, RegionIndex(header), i, j);
      KeyOk(m.key) && ToRecord(LabelRow(m)) == Expected(header, rows, i, j)
  {
    FlatNameRegion(header[j]);
    SplitPair(header[j].0, header[j].1, KeySeparator);
  }

  /** Before the drop there are |rows| * (|columns| - 1) rows. */
  lemma LabelledLength(header: seq<Column>, rows: seq<seq<string>>)
    requires RowsOfWidth(rows, |header|) && WellFormedHeader(header)
    ensures |Labelled(header, rows)| == (|header| - 1) * |rows|
  {
    NamesOfRegion(header);
    MeltLength(Flatten(header), rows, RegionIndex(header), |header|);
  }

  /** Before the drop, the row for (data row `i`, value column `j`) sits
      where `melt` puts it and becomes the record `Expected` describes. */
  lemma LabelledAt(header: seq<Column>, rows: seq<seq<string>>, i: nat, j: nat)
    requires RowsOfWidth(rows, |header|) && WellFormedHeader(header) && ValueCell(header, rows, i, j)
    ensures MeltPosition(j, RegionIndex(header), |rows|, i) < |Labelled(header, rows)|
    ensures ToRecord(Labelled(header, rows)[MeltPosition(j, RegionIndex(header), |rows|, i)]) == Expected(header, rows, i, j)
  {
    var names := Flatten(header);
    var r := RegionIndex(header);
    NamesOfRegion(header);
    RegionUnique(header, j);
    MeltAt(names, rows, r, |header|, i, j);
    LabelCell(header, rows, i, j);
  }

  /** In the flat names, only the region column carries the region name. */
  lemma NamesOfRegion(header: seq<Column>)
    requires WellFormedHeader(header)
    ensures forall j :: 0 <= j < |header| ==> (Flatten(header)[j] == RegionHeader <==> j == RegionIndex(header))
  {
    forall j | 0 <= j < |header|
      ensures Flatten(header)[j] == RegionHeader <==> j == RegionIndex(header)
    {
      FlatNameRegion(header[j]);
      RegionUnique(header, j);
    }
  }

  /** Every record of the normalised table comes from one (data row, value
      column) cell, and none has a superseded month as its year. */
  lemma NormaliseSound(header: seq<Column>, rows: seq<seq<string>>, x: Record)
    requires RowsOfWidth(rows, |header|) && WellFormedHeader(header)
    requires x in Normalise(header, rows).value
    ensures x.year !in SupersededMonths
    ensures exists i, j :: ValueCell(header, rows, i, j) && x == Expected(header, rows, i, j)
  {
    var names := Flatten(header);
    var r := RegionIndex(header);
    var melted := MeltColumns(names, rows, r, |header|);
    var labelled := Labelled(header, rows);
    var kept := DropSuperseded(labelled);
    var k :| 0 <= k < |kept| && x == Coerce(kept)[k];
    assert kept[k] in labelled && KeepRow(kept[k]);
    var p :| 0 <= p < |labelled| && labelled[p] == kept[k];
    MeltMembers(names, rows, r, |header|, melted[p]);
    var i, j :| 0 <= i < |rows| && 0 <= j < |header| && names[j] != RegionHeader
      && melted[p] == CellRow(names, rows, r, i, j);
    FlatNameRegion(header[j]);
    LabelCell(header, rows, i, j);
    assert ValueCell(header, rows, i, j) && x == Expected(header, rows, i, j);
  }

  /** Every (data row, value column) cell whose canonical year is not a
      superseded month yields its record in the normalised table. */
  lemma NormaliseComplete(header: seq<Column>, rows: seq<seq<string>>, i: nat, j: nat)
    requires RowsOfWidth(rows, |header|) && WellFormedHeader(header)
    requires ValueCell(header, rows, i, j) && CanonYear(header[j].0) !in SupersededMonths
    ensures Expected(header, rows, i, j) in Normalise(header, rows).value
  {
    LabelledAt(header, rows, i, j);
    var labelled := Labelled(header, rows);
    var l := labelled[MeltPosition(j, RegionIndex(header), |rows|, i)];
    assert KeepRow(l);
    FilterComplete(KeepRow, labelled, l);
    var kept := DropSuperseded(labelled);
    var k :| 0 <= k < |kept| && kept[k] == l;
    assert Coerce(kept)[k] == Expected(header, rows, i, j);
  }

  /** The kind mapping: the three known kinds become the three gender
      labels, any other kind is kept as it is. */
  lemma GenderMapping(kind: string)
    ensures kind == TotalKind ==> MapGender(kind) == Total
    ensures kind == MaleKind ==> MapGender(kind) == Male
    ensures kind == FemaleKind ==> MapGender(kind) == Female
    ensures kind !in RawKinds ==> MapGender(kind) == kind
  {
  }

  /** When every value column has one of the three known kinds, every
      gender in the normalised table is 전체, 남자 or 여자. */
  lemma NormaliseGenders(header: seq<Column>, rows: seq<seq<string>>)
    requires RowsOfWidth(rows, |header|) && WellFormedHeader(header)
    requires forall j :: 0 <= j < |header| && !IsRegion(header[j]) ==> header[j].1 in RawKinds
    ensures forall x :: x in Normalise(header, rows).value ==> x.gender in Genders
  {
    forall x | x in Normalise(header, rows).value ensures x.gender in Genders {
      NormaliseSound(header, rows, x);
    }
  }

  /** A canonical year has no '.', and the raw label "2025.04" becomes "2025". */
  lemma CanonYearLabels(period: string)
    ensures '.' !in CanonYear(period)
    ensures period == "2025.04" ==> CanonYear(period) == LatestYear
  {
    if period == "2025.04" {
      assert ReplaceChar(period, '.', '-') == LatestMonth;
    }
  }

  /** No year of the normalised table contains '.' or is a superseded month,
      and the records of a "2025.04" column carry the year "2025". */
  lemma NormaliseYears(header: seq<Column>, rows: seq<seq<string>>)
    requires RowsOfWidth(rows, |header|) && WellFormedHeader(header)
    ensures forall x :: x in Normalise(header, rows).value ==> '.' !in x.year && x.year !in SupersededMonths
    ensures forall i, j :: ValueCell(header, rows, i, j) && header[j].0 == "2025.04" ==>
      Expected(header, rows, i, j).year == LatestYear
  {
    forall x | x in Normalise(header, rows).value ensures '.' !in x.year && x.year !in SupersededMonths {
      NormaliseSound(header, rows, x);
      var i, j :| ValueCell(header, rows, i, j) && x == Expected(header, rows, i, j);
      CanonYearLabels(header[j].0);
    }
    forall i, j | ValueCell(header, rows, i, j) && header[j].0 == "2025.04"
      ensures Expected(header, rows, i, j).year == LatestYear
    {
      CanonYearLabels(header[j].0);
    }
  }

  /** Lines 15-22: the loop that builds `new_columns`. */
  method FlattenColumns(header: seq<Column>) returns (newColumns: seq<string>)
    ensures newColumns == Flatten(header)
  {
    newColumns := [];
    for j := 0 to |header|
      invariant |newColumns| == j
      invariant forall t :: 0 <= t < j ==> newColumns[t] == FlatName(header[t])
    {
      if header[j].0 == RegionHeader {
        newColumns := newColumns + [RegionHeader];
      } else {
        newColumns := newColumns + [header[j].0 + [KeySeparator] + header[j].1];
      }
    }
  }

  /** Line 24: `df.melt(id_vars=...)`, each value column over all data rows. */
  method Melt(names: seq<string>, rows: seq<seq<string>>, r: nat) returns (melted: seq<MeltedRow>)
    requires r < |names| && RowsOfWidth(rows, |names|)
    ensures melted == MeltColumns(names, rows, r, |names|)
  {
    melted := [];
    for j := 0 to |names|
      invariant melted == MeltColumns(names, rows, r, j)
    {
      if names[j] != RegionHeader {
        for i := 0 to |rows|
          invariant melted == MeltColumns(names, rows, r, j) + ColumnRows(names, rows, r, j)[..i]
        {
          melted := melted + [MeltedRow(rows[i][r], names[j], rows[i][j])];
        }
        assert ColumnRows(names, rows, r, j)[..|rows|] == ColumnRows(names, rows, r, j);
      }
    }
  }

  /** Lines 25-32: split each key, rename its kind, canonicalise its period. */
  method Relabel(melted: seq<MeltedRow>) returns (labelled: seq<LabelledRow>)
    requires forall k :: 0 <= k < |melted| ==> KeyOk(melted[k].key)
    ensures labelled == LabelAll(melted)
  {
    labelled := [];
    for k := 0 to |melted|
      invariant |labelled| == k
      invariant forall t :: 0 <= t < k ==> labelled[t] == LabelRow(melted[t])
    {
      var parts := Split(melted[k].key, KeySeparator);
      var year := ReplaceChar(parts[0], '.', '-');
      if year == LatestMonth {
        year := LatestYear;
      }
      labelled := labelled + [LabelledRow(melted[k].region, year, MapGender(parts[1]), melted[k].cell)];
    }
  }

  /** Line 33: keep the rows whose year is not a superseded month. */
  method DropMonths(labelled: seq<LabelledRow>) returns (kept: seq<LabelledRow>)
    ensures kept == DropSuperseded(labelled)
  {
    kept := [];
    for k := 0 to |labelled|
      invariant kept == DropSuperseded(labelled[..k])
    {
      assert labelled[..k + 1][..k] == labelled[..k];
      if labelled[k].year !in SupersededMonths {
        kept := kept + [labelled[k]];
      }
    }
    assert labelled[..|labelled|] == labelled;
  }

  /** Lines 34-35: coerce each population cell; the region field is the
      renamed region column. */
  method CoercePopulation(kept: seq<LabelledRow>) returns (records: seq<Record>)
    ensures records == Coerce(kept)
  {
    records := [];
    for k := 0 to |kept|
      invariant |records| == k
      invariant forall t :: 0 <= t < k ==> records[t] == ToRecord(kept[t])
    {
      records := records + [Record(kept[k].region, kept[k].year, kept[k].gender, ParseInteger(kept[k].cell))];
    }
  }

  /** `load_data` as the source runs it, one step after the other. */
  method LoadData(header: seq<Column>, rows: seq<seq<string>>) returns (result: Result<seq<Record>, FormatError>)
    requires RowsOfWidth(rows, |header|)
    ensures result == Normalise(header, rows)
  {
    var count := RegionCount(header);
    if count != 1 {
      return Err(RegionColumns(count));
    }
    if !SeparatorFree(header) {
      return Err(SeparatorInLabel);
    }
    var names := FlattenColumns(header);
    var melted := Melt(names, rows, RegionIndex(header));
    MeltKeysOk(header, rows);
    var labelled := Relabel(melted);
    var kept := DropMonths(labelled);
    var records := CoercePopulation(kept);
    result := Ok(records);
  }
}
