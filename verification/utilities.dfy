/**
 * The table builders of utilities.py. Each returns a one-column fragment: an
 * ordered list of (row label, cell) pairs under the group's column name,
 * ready to be stacked into a per-group table.
 */
module Utilities {
  import opened Base
  import opened Text
  import opened Cells
  import opened Columns

  /** One row of a fragment: its index label and its single cell. */
  datatype Row = Row(rowLabel: string, cell: Cell)

  /** A one-column data frame: the group's column name and its labelled rows. */
  datatype Frame = Frame(column: string, rows: seq<Row>)

  /** The index of a fragment, top to bottom. */
  function Labels(rows: seq<Row>): (ls: seq<string>)
    ensures |ls| == |rows|
    ensures forall i :: 0 <= i < |rows| ==> ls[i] == rows[i].rowLabel
  {
    seq(|rows|, i requires 0 <= i < |rows| => rows[i].rowLabel)
  }

  lemma LabelsConcat(a: seq<Row>, b: seq<Row>)
    ensures Labels(a + b) == Labels(a) + Labels(b)
  {
  }

  /**
   * The floating-point side of the builders, left uninterpreted. Each field
   * is the text Python's str() writes for a statistic of a column's
   * non-missing values:
   *   mean, std, median -- the statistic rounded to the given decimals;
   *   quantile          -- the interpolated quantile, NOT rounded;
   *   percent           -- a proportion rounded to the given decimals, then
   *                        multiplied by 100.
   */
  datatype Numerics = Numerics(
    mean: (seq<Cell>, nat) -> string,
    std: (seq<Cell>, nat) -> string,
    median: (seq<Cell>, nat) -> string,
    quantile: (seq<Cell>, real) -> string,
    percent: (real, nat) -> string)

  /** The count a cell "<count> (...)" carries before its parenthesis, if any. */
  function CountOf(cell: Cell): Option<nat> {
    if !cell.Str? then None
    else
      var i := IndexOf(cell.s, '(');
      if 1 <= i < |cell.s| && cell.s[i - 1] == ' ' then ParseNat(cell.s[..i - 1]) else None
  }

  // ---------------------------------------------------------------- N4table

  /** N4table: a single row `statlabel` holding the number of rows given. */
  function NTable<T>(frame: seq<T>, statlabel: string, groupname: string): (r: Frame)
    ensures r.column == groupname
    ensures Labels(r.rows) == [statlabel]
    ensures r.rows[0].cell.Int? && r.rows[0].cell.n == |frame|
  {
    Frame(groupname, [Row(statlabel, Int(|frame|))])
  }

  // ----------------------------------------------------------- meanStd4table

  /**
   * meanStd4table: a header row `label` with an empty cell, the number of
   * non-missing entries, and "<mean> (<std>)" of the non-missing entries.
   */
  function MeanStdTable(col: seq<Cell>, decimals: nat, varLabel: string, statlabel: string,
                        groupname: string, num: Numerics): (r: Frame)
    ensures r.column == groupname
    ensures Labels(r.rows) == [varLabel, "N nonmissing", statlabel]
    ensures r.rows[0].cell == Str("")
    ensures r.rows[1].cell.Str? && r.rows[2].cell.Str?
  {
    var values := NonMissing(col);
    var meanStd := Paren(num.mean(values, decimals), [num.std(values, decimals)]);
    Frame(groupname, [Row(varLabel, Str("")),
                      Row("N nonmissing", Str(NatText(|values|))),
                      Row(statlabel, Str(meanStd))])
  }

  /** The 'N nonmissing' cell reads back as the number of entries that are not missing. */
  lemma MeanStdCountCell(col: seq<Cell>, decimals: nat, varLabel: string, statlabel: string,
                         groupname: string, num: Numerics)
    ensures var r := MeanStdTable(col, decimals, varLabel, statlabel, groupname, num);
            ParseNat(r.rows[1].cell.s) == Some(|col| - multiset(col)[Missing])
  {
    var values := NonMissing(col);
    var r := MeanStdTable(col, decimals, varLabel, statlabel, groupname, num);
    assert r.rows[1].cell == Str(NatText(|values|));
    NatTextRoundTrip(|values|);
  }

  /**
   * The statistic cell reads back as the mean and the standard deviation of
   * the non-missing entries.
   */
  lemma MeanStdStatCell(col: seq<Cell>, decimals: nat, varLabel: string, statlabel: string,
                        groupname: string, num: Numerics)
    ensures var r := MeanStdTable(col, decimals, varLabel, statlabel, groupname, num);
            var values := NonMissing(col);
            Plain(num.mean(values, decimals)) && Plain(num.std(values, decimals)) ==>
              Unparen(r.rows[2].cell.s) == Some((num.mean(values, decimals), [num.std(values, decimals)]))
  {
    var values := NonMissing(col);
    var r := MeanStdTable(col, decimals, varLabel, statlabel, groupname, num);
    assert r.rows[2].cell == Str(Paren(num.mean(values, decimals), [num.std(values, decimals)]));
    if Plain(num.mean(values, decimals)) && Plain(num.std(values, decimals)) {
      ParenRoundTrip(num.mean(values, decimals), [num.std(values, decimals)]);
    }
  }

  /** Missing entries change nothing in a meanStd4table fragment. */
  lemma MeanStdIgnoresMissing(col: seq<Cell>, decimals: nat, varLabel: string, statlabel: string,
                              groupname: string, num: Numerics)
    ensures MeanStdTable(col, decimals, varLabel, statlabel, groupname, num)
         == MeanStdTable(NonMissing(col), decimals, varLabel, statlabel, groupname, num)
  {
    NonMissingIdempotent(col);
  }

  // --------------------------------------------------------- medianIQR4table

  /**
   * medianIQR4table: one row `statlabel` holding "<median> (<q25>, <q75>)";
   * the median is rounded to `decimals`, the two quartiles are not.
   */
  function MedianIqrTable(col: seq<Cell>, decimals: nat, statlabel: string,
                          groupname: string, num: Numerics): (r: Frame)
    ensures r.column == groupname
    ensures Labels(r.rows) == [statlabel]
    ensures r.rows[0].cell.Str?
  {
    var values := NonMissing(col);
    var text := Paren(num.median(values, decimals),
                      [num.quantile(values, 0.25), num.quantile(values, 0.75)]);
    Frame(groupname, [Row(statlabel, Str(text))])
  }

  /**
   * The cell reads back as the rounded median and the two unrounded
   * quartiles; only the median depends on `decimals`.
   */
  lemma MedianIqrCell(col: seq<Cell>, decimals: nat, statlabel: string, groupname: string,
                      num: Numerics)
    ensures var values := NonMissing(col);
            var r := MedianIqrTable(col, decimals, statlabel, groupname, num);
            Plain(num.median(values, decimals)) && Plain(num.quantile(values, 0.25))
              && Plain(num.quantile(values, 0.75)) ==>
              Unparen(r.rows[0].cell.s)
                == Some((num.median(values, decimals), [num.quantile(values, 0.25), num.quantile(values, 0.75)]))
  {
    var values := NonMissing(col);
    var parts := [num.quantile(values, 0.25), num.quantile(values, 0.75)];
    if Plain(num.median(values, decimals)) && Plain(parts[0]) && Plain(parts[1]) {
      ParenRoundTrip(num.median(values, decimals), parts);
    }
  }

  /** The quartile part of the cell is the same whatever `decimals` is. */
  lemma MedianIqrQuartilesUnrounded(col: seq<Cell>, d1: nat, d2: nat, statlabel: string,
                                    groupname: string, num: Numerics)
    requires var values := NonMissing(col);
             Plain(num.median(values, d1)) && Plain(num.median(values, d2))
               && Plain(num.quantile(values, 0.25)) && Plain(num.quantile(values, 0.75))
    ensures var c1 := MedianIqrTable(col, d1, statlabel, groupname, num).rows[0].cell;
            var c2 := MedianIqrTable(col, d2, statlabel, groupname, num).rows[0].cell;
            Unparen(c1.s).Some? && Unparen(c2.s).Some? && Unparen(c1.s).value.1 == Unparen(c2.s).value.1
  {
    MedianIqrCell(col, d1, statlabel, groupname, num);
    MedianIqrCell(col, d2, statlabel, groupname, num);
  }

  /** Missing entries change nothing in a medianIQR4table fragment. */
  lemma MedianIqrIgnoresMissing(col: seq<Cell>, decimals: nat, statlabel: string,
                                groupname: string, num: Numerics)
    ensures MedianIqrTable(col, decimals, statlabel, groupname, num)
         == MedianIqrTable(NonMissing(col), decimals, statlabel, groupname, num)
  {
    NonMissingIdempotent(col);
  }

  // -------------------------------------------------------------- freq4table

  /** The count of one value in the counted rows and its share of those rows. */
  datatype Share = Share(count: nat, proportion: real)

  /** One category row before formatting; `share` is None where reindex found nothing. */
  datatype Entry = Entry(key: Cell, share: Option<Share>)

  /** The rows freq4table counts: the whole column for `group=[]`, else `column[group]`. */
  function Subset(col: seq<Cell>, group: seq<bool>): (sub: seq<Cell>)
    requires |group| == 0 || |group| == |col|
    ensures multiset(sub) <= multiset(col)
  {
    if |group| == 0 then col
    else
      SelectPartition(col, group);
      Select(col, group)
  }

  /**
   * `value_counts(dropna=False)` joined with
   * `value_counts(normalize=True, dropna=False)`: every value of the rows,
   * missing included, with its count and its share of ALL the rows.
   */
  function ValueCounts(xs: seq<Cell>): (m: map<Cell, Share>)
    ensures forall c :: c in m <==> c in xs
    ensures forall c :: c in m ==> m[c].count == multiset(xs)[c]
    ensures forall c :: c in m ==> m[c].proportion * |xs| as real == m[c].count as real
  {
    ShareMap(xs)
  }

  /** Each value of the rows mapped to its share of them. */
  function ShareMap(xs: seq<Cell>): (m: map<Cell, Share>)
    ensures forall c :: c in m <==> c in xs
    ensures forall c :: c in m ==> m[c] == ShareOf(multiset(xs)[c], |xs|)
  {
    map c | c in xs :: ShareOf(multiset(xs)[c], |xs|)
  }

  /** `n` rows out of `len`: the count and its proportion, which scaled back up by `len` is `n`. */
  function ShareOf(n: nat, len: nat): (s: Share)
    requires len > 0
    ensures s.count == n
    ensures s.proportion * len as real == n as real
  {
    Share(n, n as real / len as real)
  }

  /** `reindex(keys)`: one entry per key, in key order, None for keys the map lacks. */
  function Reindex(m: map<Cell, Share>, keys: seq<Cell>): (t: seq<Entry>)
    ensures |t| == |keys|
    ensures forall i :: 0 <= i < |keys| ==> t[i].key == keys[i]
    ensures forall i :: 0 <= i < |keys| ==> (t[i].share.Some? <==> keys[i] in m)
    ensures forall i :: 0 <= i < |keys| && keys[i] in m ==> t[i].share == Some(m[keys[i]])
  {
    seq(|keys|, i requires 0 <= i < |keys| =>
      Entry(keys[i], if keys[i] in m then Some(m[keys[i]]) else None))
  }

  /**
   * The category rows of freq4table before formatting: the counts of the
   * subset reindexed to the sorted categories of the FULL column.
   */
  function Tabulate(col: seq<Cell>, group: seq<bool>): (t: seq<Entry>)
    requires |group| == 0 || |group| == |col|
    ensures |t| == |Categories(col)|
    ensures forall i :: 0 <= i < |t| ==> t[i].key == Categories(col)[i]
    ensures forall i :: 0 <= i < |t| ==> (t[i].share.Some? <==> t[i].key in Subset(col, group))
    ensures forall i :: 0 <= i < |t| && t[i].share.Some? ==>
              var sub := Subset(col, group);
              && t[i].share.value.count == multiset(sub)[t[i].key]
              && t[i].share.value.proportion == t[i].share.value.count as real / |sub| as real
  {
    var sub := Subset(col, group);
    var cats := Categories(col);
    seq(|cats|, i requires 0 <= i < |cats| =>
      Entry(cats[i], if cats[i] in sub then Some(ShareOf(multiset(sub)[cats[i]], |sub|)) else None))
  }

  /** The direct definition of Tabulate is pandas' pipeline: the subset's value counts reindexed to the categories. */
  lemma TabulateIsReindex(col: seq<Cell>, group: seq<bool>)
    requires |group| == 0 || |group| == |col|
    ensures Tabulate(col, group) == Reindex(ValueCounts(Subset(col, group)), Categories(col))
  {
    var sub := Subset(col, group);
    var a, b := Tabulate(col, group), Reindex(ValueCounts(sub), Categories(col));
    forall i | 0 <= i < |a|
      ensures a[i] == b[i]
    {
      if a[i].key in sub {
        assert b[i].share == Some(ValueCounts(sub)[a[i].key]);
      }
    }
  }

  lemma GenderCategories(col: seq<Cell>)
    requires col == [Str("Male"), Str("Male"), Str("Male"), Str("Female"), Str("Female")]
    ensures Categories(col) == [Str("Female"), Str("Male")]
  {
    assert StrLess("Female", "Male");
    assert !Less(Str("Male"), Str("Female"));
    assert Insert([Str("Female")], Str("Male")) == [Str("Female"), Str("Male")];
    assert Insert([Str("Female"), Str("Male")], Str("Male")) == [Str("Female")] + Insert([Str("Male")], Str("Male"));
    assert Categories(col[4..]) == [Str("Female")];
    assert Categories(col[3..]) == [Str("Female")];
    assert Categories(col[2..]) == [Str("Female"), Str("Male")];
    assert Categories(col[1..]) == [Str("Female"), Str("Male")];
  }

  lemma GenderCounts(col: seq<Cell>)
    requires col == [Str("Male"), Str("Male"), Str("Male"), Str("Female"), Str("Female")]
    ensures multiset(col)[Str("Female")] == 2 && multiset(col)[Str("Male")] == 3
  {
    assert multiset(col) == multiset{Str("Male"), Str("Male"), Str("Male"), Str("Female"), Str("Female")};
  }

  /**
   * For example, sex codes 1, 1, 1, 2, 2 recoded and counted over the whole
   * column give Female 2 of 5 and Male 3 of 5, in that order.
   */
  lemma GenderExample(col: seq<Cell>)
    requires col == [Str("Male"), Str("Male"), Str("Male"), Str("Female"), Str("Female")]
    ensures Tabulate(col, []) == [Entry(Str("Female"), Some(Share(2, 0.4))),
                                  Entry(Str("Male"), Some(Share(3, 0.6)))]
  {
    GenderCategories(col);
    GenderCounts(col);
    var t := Tabulate(col, []);
    assert t[0].key == Str("Female") && t[1].key == Str("Male");
  }

  /** "<count> (<percent>)", or a missing cell for a category reindex did not find. */
  function FreqCell(share: Option<Share>, decimals: nat, num: Numerics): Cell {
    match share
    case None => Missing
    case Some(s) => Str(Paren(NatText(s.count), [num.percent(s.proportion, decimals)]))
  }

  /** The row labels of a sequence of category values. */
  function ShowKeys(keys: seq<Cell>): (ls: seq<string>)
    ensures |ls| == |keys|
    ensures forall i :: 0 <= i < |keys| ==> ls[i] == Show(keys[i])
  {
    seq(|keys|, i requires 0 <= i < |keys| => Show(keys[i]))
  }

  /** The labels of a column's category rows: its sorted non-missing values. */
  function CategoryLabels(col: seq<Cell>): (ls: seq<string>)
    ensures |ls| == |Categories(col)|
  {
    ShowKeys(Categories(col))
  }

  /** One formatted row per entry, labelled by the entry's category. */
  function CategoryRows(t: seq<Entry>, decimals: nat, num: Numerics): (rows: seq<Row>)
    ensures |rows| == |t|
    ensures forall i :: 0 <= i < |t| ==> rows[i] == Row(Show(t[i].key), FreqCell(t[i].share, decimals, num))
  {
    seq(|t|, i requires 0 <= i < |t| => Row(Show(t[i].key), FreqCell(t[i].share, decimals, num)))
  }

  lemma CategoryRowsLabels(t: seq<Entry>, keys: seq<Cell>, decimals: nat, num: Numerics)
    requires |t| == |keys|
    requires forall i :: 0 <= i < |t| ==> t[i].key == keys[i]
    ensures Labels(CategoryRows(t, decimals, num)) == ShowKeys(keys)
  {
  }

  /**
   * freq4table: a header row `label` with an empty cell, then one row per
   * distinct non-missing value of the whole column, in ascending order.
   */
  function FreqTable(col: seq<Cell>, decimals: nat, varLabel: string, groupname: string,
                     group: seq<bool>, num: Numerics): (r: Frame)
    requires |group| == 0 || |group| == |col|
    ensures r.column == groupname
    ensures |r.rows| == |Categories(col)| + 1
    ensures r.rows[0] == Row(varLabel, Str(""))
  {
    Frame(groupname, [Row(varLabel, Str(""))] + CategoryRows(Tabulate(col, group), decimals, num))
  }

  lemma CategoryRowsMissing(t: seq<Entry>, keys: seq<Cell>, sub: seq<Cell>, decimals: nat, num: Numerics)
    requires |t| == |keys|
    requires forall i :: 0 <= i < |t| ==> t[i].key == keys[i] && (t[i].share.Some? <==> keys[i] in sub)
    ensures forall i :: 0 <= i < |t| ==> (CategoryRows(t, decimals, num)[i].cell == Missing <==> keys[i] !in sub)
  {
  }

  /** The row labels: the variable label, then the categories of the FULL column in ascending order. */
  lemma FreqTableLabels(col: seq<Cell>, decimals: nat, varLabel: string, groupname: string,
                        group: seq<bool>, num: Numerics)
    requires |group| == 0 || |group| == |col|
    ensures Labels(FreqTable(col, decimals, varLabel, groupname, group, num).rows)
         == [varLabel] + CategoryLabels(col)
  {
    var t := Tabulate(col, group);
    var head := [Row(varLabel, Str(""))];
    CategoryRowsLabels(t, Categories(col), decimals, num);
    LabelsConcat(head, CategoryRows(t, decimals, num));
    assert Labels(head) == [varLabel];
  }

  /** A category row's cell is missing exactly when the subset lacks that category. */
  lemma FreqMissingCells(col: seq<Cell>, decimals: nat, varLabel: string, groupname: string,
                         group: seq<bool>, num: Numerics)
    requires |group| == 0 || |group| == |col|
    ensures var r := FreqTable(col, decimals, varLabel, groupname, group, num);
            forall i :: 1 <= i < |r.rows| ==>
              (r.rows[i].cell == Missing <==> Categories(col)[i - 1] !in Subset(col, group))
  {
    var t := Tabulate(col, group);
    var rows := FreqTable(col, decimals, varLabel, groupname, group, num).rows;
    var body := CategoryRows(t, decimals, num);
    CategoryRowsMissing(t, Categories(col), Subset(col, group), decimals, num);
    assert forall i :: 1 <= i < |rows| ==> rows[i] == body[i - 1];
  }

  lemma OccursCounted(xs: seq<Cell>, c: Cell)
    requires c in xs
    ensures multiset(xs)[c] > 0
  {
  }

  lemma CategoryRowPresent(t: seq<Entry>, i: nat, decimals: nat, num: Numerics)
    requires i < |t| && t[i].share.Some?
    ensures var s := t[i].share.value;
            CategoryRows(t, decimals, num)[i].cell
            == Str(Paren(NatText(s.count), [num.percent(s.proportion, decimals)]))
  {
  }

  /** The cell of a category present in the subset, as freq4table writes it. */
  lemma FreqPresentCell(col: seq<Cell>, decimals: nat, varLabel: string, groupname: string,
                        group: seq<bool>, num: Numerics, i: nat)
    requires |group| == 0 || |group| == |col|
    requires i < |Categories(col)|
    requires Categories(col)[i] in Subset(col, group)
    ensures var sub := Subset(col, group);
            var n := multiset(sub)[Categories(col)[i]];
            && n > 0
            && FreqTable(col, decimals, varLabel, groupname, group, num).rows[i + 1].cell
               == Str(Paren(NatText(n), [num.percent(n as real / |sub| as real, decimals)]))
  {
    var t := Tabulate(col, group);
    OccursCounted(Subset(col, group), Categories(col)[i]);
    CategoryRowPresent(t, i, decimals, num);
    assert FreqTable(col, decimals, varLabel, groupname, group, num).rows[i + 1]
        == CategoryRows(t, decimals, num)[i];
  }

  /** A category present in the subset shows its number of occurrences there. */
  lemma FreqCellCount(col: seq<Cell>, decimals: nat, varLabel: string, groupname: string,
                      group: seq<bool>, num: Numerics, i: nat)
    requires |group| == 0 || |group| == |col|
    requires i < |Categories(col)|
    requires Categories(col)[i] in Subset(col, group)
    ensures var n := multiset(Subset(col, group))[Categories(col)[i]];
            n > 0 && CountOf(FreqTable(col, decimals, varLabel, groupname, group, num).rows[i + 1].cell) == Some(n)
  {
    var sub := Subset(col, group);
    var n := multiset(sub)[Categories(col)[i]];
    var pct := num.percent(n as real / |sub| as real, decimals);
    FreqPresentCell(col, decimals, varLabel, groupname, group, num, i);
    NatTextRoundTrip(n);
    UnparenReadsCount(NatText(n), pct);
  }

  /**
   * The percentage of a present category is computed from its share of the
   * whole subset, missing rows included in the denominator.
   */
  lemma FreqCellPercent(col: seq<Cell>, decimals: nat, varLabel: string, groupname: string,
                        group: seq<bool>, num: Numerics, i: nat)
    requires |group| == 0 || |group| == |col|
    requires i < |Categories(col)|
    requires Categories(col)[i] in Subset(col, group)
    ensures var sub := Subset(col, group);
            var n := multiset(sub)[Categories(col)[i]];
            var pct := num.percent(n as real / |sub| as real, decimals);
            var cell := FreqTable(col, decimals, varLabel, groupname, group, num).rows[i + 1].cell;
            Plain(pct) ==> Unparen(cell.s) == Some((NatText(n), [pct]))
  {
    var sub := Subset(col, group);
    var n := multiset(sub)[Categories(col)[i]];
    var pct := num.percent(n as real / |sub| as real, decimals);
    FreqPresentCell(col, decimals, varLabel, groupname, group, num, i);
    if Plain(pct) {
      NatTextIsPlain(n);
      ParenRoundTrip(NatText(n), [pct]);
    }
  }

  /** A "<count> (<anything>)" text reads back as its count even if the tail is not plain. */
  lemma UnparenReadsCount(head: string, tail: string)
    requires |head| > 0 && AllDigits(head)
    ensures CountOf(Str(Paren(head, [tail]))) == ParseNat(head)
  {
    var s := Paren(head, [tail]);
    assert s[|head| + 1] == '(';
    forall k | 0 <= k < |head| + 1
      ensures s[k] != '('
    {
      if k < |head| {
        assert s[k] == head[k];
        assert IsDigit(head[k]);
      }
    }
    IndexOfFirst(s, '(', |head| + 1);
    assert s[..|head|] == head;
  }

  /** The label sequence does not depend on the group mask, the decimals or the column name. */
  lemma FreqLabelsIgnoreGroup(col: seq<Cell>, d1: nat, d2: nat, varLabel: string, name1: string,
                              name2: string, g1: seq<bool>, g2: seq<bool>, num: Numerics)
    requires |g1| == 0 || |g1| == |col|
    requires |g2| == 0 || |g2| == |col|
    ensures Labels(FreqTable(col, d1, varLabel, name1, g1, num).rows)
         == Labels(FreqTable(col, d2, varLabel, name2, g2, num).rows)
  {
    FreqTableLabels(col, d1, varLabel, name1, g1, num);
    FreqTableLabels(col, d2, varLabel, name2, g2, num);
  }

  /** The default `group=[]` counts the whole column, as the all-true mask does. */
  lemma FreqDefaultGroup(col: seq<Cell>, decimals: nat, varLabel: string, groupname: string,
                         num: Numerics)
    ensures FreqTable(col, decimals, varLabel, groupname, [], num)
         == FreqTable(col, decimals, varLabel, groupname, AllTrue(|col|), num)
  {
    SelectAll(col);
  }

  /** The sum of the counts of the entries that reindex found. */
  function EmittedTotal(t: seq<Entry>): nat {
    if |t| == 0 then 0
    else (if t[0].share.Some? then t[0].share.value.count else 0) + EmittedTotal(t[1..])
  }

  lemma {:induction false} EmittedTotalOfReindex(xs: seq<Cell>, keys: seq<Cell>)
    ensures EmittedTotal(Reindex(ValueCounts(xs), keys)) == SumCounts(keys, multiset(xs))
  {
    if |keys| > 0 {
      assert Reindex(ValueCounts(xs), keys)[1..] == Reindex(ValueCounts(xs), keys[1..]);
      EmittedTotalOfReindex(xs, keys[1..]);
    }
  }

  /**
   * The counts freq4table emits add up to the size of the subset minus its
   * missing entries: the missing-value row is dropped by the reindex.
   */
  lemma FreqCountsAddUp(col: seq<Cell>, group: seq<bool>)
    requires |group| == 0 || |group| == |col|
    ensures var sub := Subset(col, group);
            EmittedTotal(Tabulate(col, group)) == |sub| - multiset(sub)[Missing]
  {
    var sub := Subset(col, group);
    var cats := Categories(col);
    TabulateIsReindex(col, group);
    EmittedTotalOfReindex(sub, cats);
    forall c | c in sub && c != Missing
      ensures c in cats
    {
      assert multiset(sub)[c] > 0;
    }
    CountsAddUp(cats, sub);
  }

  // ------------------------------------------------------------- empty4table

  /** empty4table: the blank separator row, label "" and cell "". */
  function EmptyTable(groupname: string): (r: Frame)
    ensures r.column == groupname
    ensures Labels(r.rows) == [""]
    ensures r.rows[0].cell == Str("")
  {
    Frame(groupname, [Row("", Str(""))])
  }
}
