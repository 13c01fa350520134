/**
 * The descriptive-table part of main.py: the recodes, the All/Male/Female
 * strata, the per-group table stacked from the builders' fragments, the
 * side-by-side join of the three group tables, and the row filter in front
 * of the Cox regression.
 */
module Report {
  import opened Base
  import opened Text
  import opened Cells
  import opened Columns
  import opened Utilities

  /** One row of the lung data set, restricted to the columns the script reads. */
  datatype Patient = Patient(time: Cell, status: Cell, sex: Cell, age: Cell, wtLoss: Cell,
                             phEcog: Cell, phKarno: Cell, patKarno: Cell, mealCal: Cell)

  // ----------------------------------------------------------------- recodes

  /** sex_recode: code 1 is 'Male'; every other value, missing included, is 'Female'. */
  function SexRecode(sex: Cell): (r: string)
    ensures r == "Male" || r == "Female"
    ensures r == "Male" <==> sex == Int(1)
  {
    if sex == Int(1) then "Male" else "Female"
  }

  /** status_recode: code 1 is 'Alive'; every other value is 'Dead'. */
  function StatusRecode(status: Cell): (r: string)
    ensures r == "Alive" || r == "Dead"
    ensures r == "Alive" <==> status == Int(1)
  {
    if status == Int(1) then "Alive" else "Dead"
  }

  /** status_km, the event indicator handed to lifelines: 1 for code 2, else 0. */
  function EventIndicator(status: Cell): (e: int)
    ensures e == 0 || e == 1
    ensures e == 1 <==> status == Int(2)
  {
    if status == Int(2) then 1 else 0
  }

  /** age_grp: 1 for an age of 65 or more; 0 otherwise, a missing age included. */
  function AgeGroup(age: Cell): (g: int)
    ensures g == 0 || g == 1
    ensures g == 1 <==> age.Int? && age.n >= 65
  {
    if age.Int? && age.n >= 65 then 1 else 0
  }

  /** The regression's sex code: 1 stays 1, every other value becomes 2. */
  function RegressionSex(sex: Cell): (code: int)
    ensures code == 1 || code == 2
    ensures code == 1 <==> sex == Int(1)
  {
    if sex == Int(1) then 1 else 2
  }

  /** The regression's sex code and the table's sex label agree on every patient. */
  lemma SexCodingsAgree(sex: Cell)
    ensures RegressionSex(sex) == 1 <==> SexRecode(sex) == "Male"
    ensures RegressionSex(sex) == 2 <==> SexRecode(sex) == "Female"
  {
  }

  /**
   * On the data set's two status codes the table's 'Dead' and the event
   * indicator agree; any other code would be 'Dead' but censored.
   */
  lemma StatusCodingsAgree(status: Cell)
    ensures status == Int(1) || status == Int(2) ==>
              (StatusRecode(status) == "Dead" <==> EventIndicator(status) == 1)
    ensures status != Int(1) && status != Int(2) ==>
              StatusRecode(status) == "Dead" && EventIndicator(status) == 0
  {
  }

  // ----------------------------------------------------------------- columns

  /** The columns the per-group table summarises, the two recoded ones included. */
  datatype Field = Age | WtLoss | PhEcog | PhKarno | PatKarno | MealCal | SexRecoded | StatusRecoded

  function Get(p: Patient, f: Field): Cell {
    match f
    case Age => p.age
    case WtLoss => p.wtLoss
    case PhEcog => p.phEcog
    case PhKarno => p.phKarno
    case PatKarno => p.patKarno
    case MealCal => p.mealCal
    case SexRecoded => Str(SexRecode(p.sex))
    case StatusRecoded => Str(StatusRecode(p.status))
  }

  /** `lungdata[f]`, one entry per patient in data-set order. */
  function Column(data: seq<Patient>, f: Field): (col: seq<Cell>)
    ensures |col| == |data|
    ensures forall i :: 0 <= i < |data| ==> col[i] == Get(data[i], f)
  {
    seq(|data|, i requires 0 <= i < |data| => Get(data[i], f))
  }

  // ------------------------------------------------------------------ strata

  /** `male = (lungdata['sex_recode'] == 'Male')`. */
  function MaleMask(data: seq<Patient>): (mask: seq<bool>)
    ensures |mask| == |data|
  {
    var sexes := Column(data, SexRecoded);
    seq(|data|, i requires 0 <= i < |data| => sexes[i] == Str("Male"))
  }

  /** `female = ~male`. */
  function FemaleMask(data: seq<Patient>): (mask: seq<bool>)
    ensures |mask| == |data|
  {
    Negate(MaleMask(data))
  }

  /** The three strata of the report, in column order: All, Male, Female. */
  function Strata(data: seq<Patient>): (masks: seq<seq<bool>>)
    ensures |masks| == 3
    ensures forall k :: 0 <= k < 3 ==> |masks[k]| == |data|
  {
    [AllTrue(|data|), MaleMask(data), FemaleMask(data)]
  }

  /** `labels = ['All', 'Male', 'Female']`. */
  const StrataNames: seq<string> := ["All", "Male", "Female"]

  /**
   * Every patient is in exactly one of Male and Female, Male is exactly sex
   * code 1, and the two strata together count every patient, as All does.
   */
  lemma StrataPartition(data: seq<Patient>)
    ensures var male := MaleMask(data);
            var female := FemaleMask(data);
            && (forall i :: 0 <= i < |data| ==> (male[i] <==> data[i].sex == Int(1)))
            && (forall i :: 0 <= i < |data| ==> male[i] != female[i])
            && |Select(data, male)| + |Select(data, female)| == |data|
            && |Select(data, AllTrue(|data|))| == |data|
  {
    SelectPartition(data, MaleMask(data));
    SelectAll(data);
  }

  /**
   * In the Male table the Gender row 'Female' is a missing cell, and in the
   * Female table the row 'Male' is: reindexing to the full column's categories
   * keeps a row the group cannot have.
   */
  lemma StrataGenderRows(data: seq<Patient>, d: nat, heading: string, num: Numerics)
    ensures var col := Column(data, SexRecoded);
            var male := FreqTable(col, d, heading, "Male", MaleMask(data), num);
            forall i :: 1 <= i < |male.rows| && Categories(col)[i - 1] == Str("Female") ==>
              male.rows[i].cell == Missing
    ensures var col := Column(data, SexRecoded);
            var female := FreqTable(col, d, heading, "Female", FemaleMask(data), num);
            forall i :: 1 <= i < |female.rows| && Categories(col)[i - 1] == Str("Male") ==>
              female.rows[i].cell == Missing
  {
    var col := Column(data, SexRecoded);
    var male, female := MaleMask(data), FemaleMask(data);
    FreqMissingCells(col, d, heading, "Male", male, num);
    FreqMissingCells(col, d, heading, "Female", female, num);
    assert forall i :: 0 <= i < |col| ==> (male[i] <==> col[i] == Str("Male"));
    assert forall i :: 0 <= i < |col| ==> (female[i] <==> col[i] != Str("Male"));
    SelectMembers(col, male, Str("Female"));
    SelectMembers(col, female, Str("Male"));
  }

  // -------------------------------------------------------- per-group table

  /**
   * One builder call of the loop body in main.py, with the arguments that do
   * not depend on the group.
   */
  datatype Step =
    | Count(statlabel: string)
    | Blank
    | MeanStd(field: Field, decimals: nat, heading: string, statlabel: string)
    | MedianIqr(field: Field, decimals: nat, statlabel: string)
    | Freq(field: Field, decimals: nat, heading: string)

  /** The fragments of one group table, in the order they are concatenated. */
  const Plan: seq<Step> := [
    Count("Number of patients"),
    Blank,
    MeanStd(Age, 1, "Age", "Mean (SD)"),
    MedianIqr(Age, 1, "Median (IQR)"),
    Blank,
    Freq(SexRecoded, 1, "Gender"),
    Blank,
    MeanStd(WtLoss, 1, "Weight loss", "Mean (SD)"),
    Blank,
    Freq(PhEcog, 4, "ECOG performance (physician)"),
    Blank,
    Freq(PhKarno, 4, "Karnofsky performance (physician)"),
    Blank,
    Freq(PatKarno, 4, "Karnofsky performance (patient)"),
    Blank,
    MeanStd(MealCal, 1, "Calories consumed at meals", "Mean (SD)"),
    MedianIqr(MealCal, 1, "Median (IQR)"),
    Blank,
    MeanStd(WtLoss, 1, "Weight loss in last 6 months", "Mean (SD)"),
    Blank,
    Freq(StatusRecoded, 1, "Patient status")
  ]

  /**
   * Runs one step for the group `mask`. N4table gets the selected rows, the
   * mean and median builders the selected entries of their column, and
   * freq4table the whole column together with the mask.
   */
  function Build(data: seq<Patient>, mask: seq<bool>, name: string, num: Numerics, step: Step): Frame
    requires |mask| == |data|
  {
    match step
    case Count(statlabel) => NTable(Select(data, mask), statlabel, name)
    case Blank => EmptyTable(name)
    case MeanStd(f, d, heading, statlabel) =>
      MeanStdTable(Select(Column(data, f), mask), d, heading, statlabel, name, num)
    case MedianIqr(f, d, statlabel) => MedianIqrTable(Select(Column(data, f), mask), d, statlabel, name, num)
    case Freq(f, d, heading) => FreqTable(Column(data, f), d, heading, name, mask, num)
  }

  /**
   * The row labels a step contributes. They depend on the data set only
   * through the category set of a frequency step's full column, and not at
   * all on the group.
   */
  function StepLabels(data: seq<Patient>, step: Step): seq<string> {
    match step
    case Count(statlabel) => [statlabel]
    case Blank => [""]
    case MeanStd(_, _, heading, statlabel) => [heading, "N nonmissing", statlabel]
    case MedianIqr(_, _, statlabel) => [statlabel]
    case Freq(f, _, heading) => [heading] + CategoryLabels(Column(data, f))
  }

  /** Every step produces exactly the labels StepLabels announces, under the group's name. */
  lemma BuildLabels(data: seq<Patient>, mask: seq<bool>, name: string, num: Numerics, step: Step)
    requires |mask| == |data|
    ensures Build(data, mask, name, num, step).column == name
    ensures Labels(Build(data, mask, name, num, step).rows) == StepLabels(data, step)
  {
    if step.Freq? {
      FreqTableLabels(Column(data, step.field), step.decimals, step.heading, name, mask, num);
    }
  }

  /** Vertical concatenation, `pd.concat(fragments)`. */
  function Stack(parts: seq<Frame>): seq<Row> {
    if |parts| == 0 then [] else parts[0].rows + Stack(parts[1..])
  }

  function Flatten(ls: seq<seq<string>>): seq<string> {
    if |ls| == 0 then [] else ls[0] + Flatten(ls[1..])
  }

  lemma {:induction false} StackLabels(parts: seq<Frame>, ls: seq<seq<string>>)
    requires |parts| == |ls|
    requires forall k :: 0 <= k < |parts| ==> Labels(parts[k].rows) == ls[k]
    ensures Labels(Stack(parts)) == Flatten(ls)
  {
    if |parts| > 0 {
      StackLabels(parts[1..], ls[1..]);
      LabelsConcat(parts[0].rows, Stack(parts[1..]));
    }
  }

  /** The fragments of one group, one per step of the plan. */
  function Fragments(data: seq<Patient>, mask: seq<bool>, name: string, num: Numerics): (fs: seq<Frame>)
    requires |mask| == |data|
    ensures |fs| == |Plan|
  {
    BuildAll(data, mask, name, num, Plan)
  }

  /** One builder call per step, in order. */
  function BuildAll(data: seq<Patient>, mask: seq<bool>, name: string, num: Numerics, steps: seq<Step>): (fs: seq<Frame>)
    requires |mask| == |data|
    ensures |fs| == |steps|
  {
    if |steps| == 0 then [] else [Build(data, mask, name, num, steps[0])] + BuildAll(data, mask, name, num, steps[1..])
  }

  lemma {:induction false} BuildAllAt(data: seq<Patient>, mask: seq<bool>, name: string, num: Numerics,
                                      steps: seq<Step>, k: nat)
    requires |mask| == |data| && k < |steps|
    ensures BuildAll(data, mask, name, num, steps)[k] == Build(data, mask, name, num, steps[k])
  {
    if k > 0 {
      BuildAllAt(data, mask, name, num, steps[1..], k - 1);
    }
  }

  /** `strata_table`: the fragments of one group stacked in plan order. */
  function GroupTable(data: seq<Patient>, mask: seq<bool>, name: string, num: Numerics): Frame
    requires |mask| == |data|
  {
    Frame(name, Stack(Fragments(data, mask, name, num)))
  }

  /** The row labels every group table has: the steps' labels in plan order. */
  function ReportLabels(data: seq<Patient>): seq<string> {
    Flatten(seq(|Plan|, k requires 0 <= k < |Plan| => StepLabels(data, Plan[k])))
  }

  /** A group table's labels are ReportLabels, whichever mask and name built it. */
  lemma GroupTableLabels(data: seq<Patient>, mask: seq<bool>, name: string, num: Numerics)
    requires |mask| == |data|
    ensures Labels(GroupTable(data, mask, name, num).rows) == ReportLabels(data)
  {
    var parts := Fragments(data, mask, name, num);
    var ls := seq(|Plan|, k requires 0 <= k < |Plan| => StepLabels(data, Plan[k]));
    forall k | 0 <= k < |parts|
      ensures Labels(parts[k].rows) == ls[k]
    {
      FragmentAt(data, mask, name, num, k);
      BuildLabels(data, mask, name, num, Plan[k]);
    }
    StackLabels(parts, ls);
  }

  /** Where fragment `m` starts in the stacked table: the rows of the fragments before it. */
  function Offset(parts: seq<Frame>, m: nat): nat
    requires m <= |parts|
  {
    if m == 0 then 0 else |parts[0].rows| + Offset(parts[1..], m - 1)
  }

  lemma {:induction false} OffsetStep(parts: seq<Frame>, m: nat)
    requires m < |parts|
    ensures Offset(parts, m + 1) == Offset(parts, m) + |parts[m].rows|
  {
    if m > 0 {
      OffsetStep(parts[1..], m - 1);
    }
  }

  /** Fragment `k` of a group table is the builder call of plan step `k`. */
  lemma {:induction false} FragmentAt(data: seq<Patient>, mask: seq<bool>, name: string, num: Numerics, k: nat)
    requires |mask| == |data| && k < |Plan|
    ensures Fragments(data, mask, name, num)[k] == Build(data, mask, name, num, Plan[k])
  {
    BuildAllAt(data, mask, name, num, Plan, k);
  }

  /** Fragment `k` has as many rows as its step announces labels. */
  lemma {:induction false} FragmentSize(data: seq<Patient>, mask: seq<bool>, name: string, num: Numerics, k: nat)
    requires |mask| == |data| && k < |Plan|
    ensures |Fragments(data, mask, name, num)[k].rows| == |StepLabels(data, Plan[k])|
  {
    FragmentAt(data, mask, name, num, k);
    BuildLabels(data, mask, name, num, Plan[k]);
  }

  /** The first six steps of the plan. */
  lemma PlanHead()
    ensures Plan[0] == Count("Number of patients") && Plan[1] == Blank
    ensures Plan[2] == MeanStd(Age, 1, "Age", "Mean (SD)")
    ensures Plan[3] == MedianIqr(Age, 1, "Median (IQR)") && Plan[4] == Blank
    ensures Plan[5] == Freq(SexRecoded, 1, "Gender")
  {
  }

  /** Row `i` of fragment `m` is row `Offset(parts, m) + i` of the stacked table. */
  lemma {:induction false} StackAt(parts: seq<Frame>, m: nat, i: nat)
    requires m < |parts| && i < |parts[m].rows|
    ensures Offset(parts, m) + i < |Stack(parts)|
    ensures Stack(parts)[Offset(parts, m) + i] == parts[m].rows[i]
  {
    if m > 0 {
      StackAt(parts[1..], m - 1, i);
    }
  }

  /** The fragments up to and including `m` fit in the stacked table. */
  lemma {:induction false} OffsetBound(parts: seq<Frame>, m: nat)
    requires m < |parts|
    ensures Offset(parts, m) + |parts[m].rows| <= |Stack(parts)|
  {
    if m > 0 {
      OffsetBound(parts[1..], m - 1);
    }
  }

  /** Fragment `m` appears whole in the stacked table, starting at `Offset(parts, m)`. */
  lemma {:induction false} StackBlock(parts: seq<Frame>, m: nat)
    requires m < |parts|
    ensures Offset(parts, m) + |parts[m].rows| <= |Stack(parts)|
    ensures forall i :: 0 <= i < |parts[m].rows| ==> Stack(parts)[Offset(parts, m) + i] == parts[m].rows[i]
  {
    OffsetBound(parts, m);
    forall i | 0 <= i < |parts[m].rows|
      ensures Stack(parts)[Offset(parts, m) + i] == parts[m].rows[i]
    {
      StackAt(parts, m, i);
    }
  }

  /**
   * The Age block of a group table summarises the group's rows: its
   * 'N nonmissing' row, the fourth of the table, reads back as the number of
   * patients selected by the mask whose age is present.
   */
  lemma {:induction false} GroupAgeCount(data: seq<Patient>, mask: seq<bool>, name: string, num: Numerics)
    requires |mask| == |data|
    ensures var g := GroupTable(data, mask, name, num);
            var ages := Select(Column(data, Age), mask);
            && |g.rows| > 3
            && g.rows[3].rowLabel == "N nonmissing"
            && g.rows[3].cell.Str?
            && ParseNat(g.rows[3].cell.s) == Some(|ages| - multiset(ages)[Missing])
  {
    var ages := Select(Column(data, Age), mask);
    var block := MeanStdTable(ages, 1, "Age", "Mean (SD)", name, num);
    AgeBlock(data, mask, name, num);
    assert Labels(block.rows)[1] == "N nonmissing";
    MeanStdCountCell(ages, 1, "Age", "Mean (SD)", name, num);
  }

  /** The fourth row of a group table is the count row of its Age fragment. */
  lemma {:induction false} AgeBlock(data: seq<Patient>, mask: seq<bool>, name: string, num: Numerics)
    requires |mask| == |data|
    ensures var g := GroupTable(data, mask, name, num);
            var block := MeanStdTable(Select(Column(data, Age), mask), 1, "Age", "Mean (SD)", name, num);
            |g.rows| > 3 && g.rows[3] == block.rows[1]
  {
    var parts := Fragments(data, mask, name, num);
    AgeFragment(data, mask, name, num);
    StackAt(parts, 2, 1);
  }

  /** The Age fragment is meanStd4table on the group's ages, and starts on the third row. */
  lemma {:induction false} AgeFragment(data: seq<Patient>, mask: seq<bool>, name: string, num: Numerics)
    requires |mask| == |data|
    ensures var parts := Fragments(data, mask, name, num);
            && parts[2] == MeanStdTable(Select(Column(data, Age), mask), 1, "Age", "Mean (SD)", name, num)
            && Offset(parts, 2) == 2
  {
    var parts := Fragments(data, mask, name, num);
    FragmentAt(data, mask, name, num, 2);
    PlanHead();
    LeadingSizes(data, mask, name, num);
    OffsetStep(parts, 0);
    OffsetStep(parts, 1);
  }

  /**
   * A group table holds, from its eighth row on, the whole frequency table of
   * the recoded sex column under the group's own mask: together with
   * FreqTableLabels and FreqMissingCells this places every Gender category
   * row of the group and says when its cell is missing.
   */
  lemma {:induction false} GenderBlock(data: seq<Patient>, mask: seq<bool>, name: string, num: Numerics)
    requires |mask| == |data|
    ensures var g := GroupTable(data, mask, name, num);
            var freq := FreqTable(Column(data, SexRecoded), 1, "Gender", name, mask, num);
            && 7 + |freq.rows| <= |g.rows|
            && forall i :: 0 <= i < |freq.rows| ==> g.rows[7 + i] == freq.rows[i]
  {
    GenderFragment(data, mask, name, num);
    GenderOffset(data, mask, name, num);
    StackBlock(Fragments(data, mask, name, num), 5);
  }

  /** The Gender fragment is freq4table on the whole recoded column and the group mask. */
  lemma {:induction false} GenderFragment(data: seq<Patient>, mask: seq<bool>, name: string, num: Numerics)
    requires |mask| == |data|
    ensures Fragments(data, mask, name, num)[5]
         == FreqTable(Column(data, SexRecoded), 1, "Gender", name, mask, num)
  {
    FragmentAt(data, mask, name, num, 5);
    PlanHead();
  }

  /** The fragments before the Gender block have 1, 1, 3, 1 and 1 rows. */
  lemma {:induction false} LeadingSizes(data: seq<Patient>, mask: seq<bool>, name: string, num: Numerics)
    requires |mask| == |data|
    ensures var parts := Fragments(data, mask, name, num);
            |parts[0].rows| == 1 && |parts[1].rows| == 1 && |parts[2].rows| == 3
            && |parts[3].rows| == 1 && |parts[4].rows| == 1
  {
    PlanHead();
    FragmentSize(data, mask, name, num, 0);
    FragmentSize(data, mask, name, num, 1);
    FragmentSize(data, mask, name, num, 2);
    FragmentSize(data, mask, name, num, 3);
    FragmentSize(data, mask, name, num, 4);
  }

  /** The Gender block starts on the eighth row of a group table. */
  lemma {:induction false} GenderOffset(data: seq<Patient>, mask: seq<bool>, name: string, num: Numerics)
    requires |mask| == |data|
    ensures Offset(Fragments(data, mask, name, num), 5) == 7
  {
    var parts := Fragments(data, mask, name, num);
    LeadingSizes(data, mask, name, num);
    OffsetStep(parts, 0);
    OffsetStep(parts, 1);
    OffsetStep(parts, 2);
    OffsetStep(parts, 3);
    OffsetStep(parts, 4);
  }


  // -------------------------------------------------------------------- join

  /** A row of the joined report: a label and one cell per group. */
  datatype Line = Line(rowLabel: string, cells: seq<Cell>)

  /** The joined report: column names and rows. */
  datatype Table = Table(columns: seq<string>, lines: seq<Line>)

  /** Why a side-by-side join has no result. */
  datatype JoinError = NoFrames | Misaligned

  /** All frames carry the same row-label sequence. */
  predicate Aligned(frames: seq<Frame>) {
    forall j :: 0 <= j < |frames| ==> Labels(frames[j].rows) == Labels(frames[0].rows)
  }

  function LineLabels(lines: seq<Line>): (ls: seq<string>)
    ensures |ls| == |lines|
    ensures forall i :: 0 <= i < |lines| ==> ls[i] == lines[i].rowLabel
  {
    seq(|lines|, i requires 0 <= i < |lines| => lines[i].rowLabel)
  }

  /**
   * `pd.concat(frames, axis=1)`: frames with one shared label sequence are
   * put side by side row by row. No frames is an error, as is any
   * disagreement in the labels.
   */
  function Join(frames: seq<Frame>): (r: Result<Table, JoinError>)
    ensures r.Ok? <==> |frames| > 0 && Aligned(frames)
    ensures r == Err(NoFrames) <==> |frames| == 0
    ensures r.Ok? ==> |r.value.columns| == |frames|
                      && (forall j :: 0 <= j < |frames| ==> r.value.columns[j] == frames[j].column)
                      && LineLabels(r.value.lines) == Labels(frames[0].rows)
                      && (forall i :: 0 <= i < |r.value.lines| ==> |r.value.lines[i].cells| == |frames|)
  {
    if |frames| == 0 then Err(NoFrames)
    else if !Aligned(frames) then Err(Misaligned)
    else
      var n := |frames[0].rows|;
      assert forall j :: 0 <= j < |frames| ==> |frames[j].rows| == n by {
        forall j | 0 <= j < |frames|
          ensures |frames[j].rows| == n
        {
          assert |Labels(frames[j].rows)| == |Labels(frames[0].rows)|;
        }
      }
      var columns := seq(|frames|, j requires 0 <= j < |frames| => frames[j].column);
      var lines := seq(n, i requires 0 <= i < n =>
        Line(frames[0].rows[i].rowLabel,
             seq(|frames|, j requires 0 <= j < |frames| => frames[j].rows[i].cell)));
      Ok(Table(columns, lines))
  }

  /** Column `j` of a joined report, read back as a one-column frame. */
  function ColumnOf(t: Table, j: nat): Frame
    requires j < |t.columns|
    requires forall i :: 0 <= i < |t.lines| ==> j < |t.lines[i].cells|
  {
    Frame(t.columns[j], seq(|t.lines|, i requires 0 <= i < |t.lines| =>
      Row(t.lines[i].rowLabel, t.lines[i].cells[j])))
  }

  /** The join loses nothing: each column of the result is the frame it came from. */
  lemma JoinSplitsBack(frames: seq<Frame>, j: nat)
    requires Join(frames).Ok?
    requires j < |frames|
    ensures ColumnOf(Join(frames).value, j) == frames[j]
  {
    var t := Join(frames).value;
    var c := ColumnOf(t, j);
    assert |Labels(frames[j].rows)| == |Labels(frames[0].rows)|;
    forall i | 0 <= i < |c.rows|
      ensures c.rows[i] == frames[j].rows[i]
    {
      assert Labels(frames[j].rows)[i] == Labels(frames[0].rows)[i];
    }
  }

  /** `result`: the All, Male and Female tables side by side. */
  function Report(data: seq<Patient>, num: Numerics): Result<Table, JoinError> {
    var strata := Strata(data);
    Join(seq(3, k requires 0 <= k < 3 => GroupTable(data, strata[k], StrataNames[k], num)))
  }

  /**
   * The join always succeeds: its columns are All, Male and Female in that
   * order, and its rows carry ReportLabels, as many as one group table has.
   */
  lemma ReportAligned(data: seq<Patient>, num: Numerics)
    ensures Report(data, num).Ok?
    ensures Report(data, num).value.columns == ["All", "Male", "Female"]
    ensures LineLabels(Report(data, num).value.lines) == ReportLabels(data)
  {
    var strata := Strata(data);
    var frames := seq(3, k requires 0 <= k < 3 => GroupTable(data, strata[k], StrataNames[k], num));
    forall j | 0 <= j < 3
      ensures Labels(frames[j].rows) == ReportLabels(data)
    {
      GroupTableLabels(data, strata[j], StrataNames[j], num);
    }
    assert Aligned(frames);
  }

  /**
   * Each column of the report is the group table of its own stratum: All
   * summarises every patient, Male the patients with sex code 1 and Female
   * those with sex code 2.
   */
  lemma ReportColumns(data: seq<Patient>, num: Numerics)
    ensures Report(data, num).Ok?
    ensures ColumnOf(Report(data, num).value, 0) == GroupTable(data, AllTrue(|data|), "All", num)
    ensures ColumnOf(Report(data, num).value, 1) == GroupTable(data, MaleMask(data), "Male", num)
    ensures ColumnOf(Report(data, num).value, 2) == GroupTable(data, FemaleMask(data), "Female", num)
  {
    ReportAligned(data, num);
    var strata := Strata(data);
    var frames := seq(3, k requires 0 <= k < 3 => GroupTable(data, strata[k], StrataNames[k], num));
    assert Report(data, num) == Join(frames);
    JoinSplitsBack(frames, 0);
    JoinSplitsBack(frames, 1);
    JoinSplitsBack(frames, 2);
  }

  /**
   * The first row counts the patients: All counts every patient, Male and
   * Female the patients their masks select, and All is the sum of the two.
   */
  lemma PatientCountsAddUp(data: seq<Patient>, num: Numerics)
    ensures var r := Report(data, num);
            r.Ok? && |r.value.lines| > 0 && |r.value.lines[0].cells| == 3
            && r.value.lines[0].rowLabel == "Number of patients"
            && r.value.lines[0].cells[0] == Int(|data|)
            && r.value.lines[0].cells[1] == Int(|Select(data, MaleMask(data))|)
            && r.value.lines[0].cells[2] == Int(|Select(data, FemaleMask(data))|)
            && r.value.lines[0].cells[0].n == r.value.lines[0].cells[1].n + r.value.lines[0].cells[2].n
  {
    ReportAligned(data, num);
    StrataPartition(data);
    var strata := Strata(data);
    var frames := seq(3, k requires 0 <= k < 3 => GroupTable(data, strata[k], StrataNames[k], num));
    forall j | 0 <= j < 3
      ensures frames[j].rows[0] == Row("Number of patients", Int(|Select(data, strata[j])|))
    {
      var parts := Fragments(data, strata[j], StrataNames[j], num);
      FragmentAt(data, strata[j], StrataNames[j], num, 0);
      PlanHead();
      assert parts[0] == NTable(Select(data, strata[j]), "Number of patients", StrataNames[j]);
      assert Stack(parts) == parts[0].rows + Stack(parts[1..]);
    }
    var t := Report(data, num).value;
    assert t.lines[0].cells[0] == frames[0].rows[0].cell;
    assert t.lines[0].cells[1] == frames[1].rows[0].cell;
    assert t.lines[0].cells[2] == frames[2].rows[0].cell;
  }

  // ------------------------------------------------------- regression input

  /** `lung_cph`'s columns: time, status_km, the regression sex code, age, wt.loss. */
  datatype CoxRow = CoxRow(time: Cell, statusKm: int, sex: int, age: Cell, wtLoss: Cell)

  function CoxColumns(p: Patient): CoxRow {
    CoxRow(p.time, EventIndicator(p.status), RegressionSex(p.sex), p.age, p.wtLoss)
  }

  /**
   * `lung_cph[lung_cph['wt.loss'].notna()]`: the rows with a weight loss, in
   * data-set order, each restricted to the regression's columns, together
   * with the index label (original position) pandas keeps for each.
   */
  method CoxInput(data: seq<Patient>) returns (rows: seq<CoxRow>, index: seq<nat>)
    ensures |rows| == |index|
    ensures forall k :: 0 <= k < |index| ==> index[k] < |data| && rows[k] == CoxColumns(data[index[k]])
    ensures forall k, l :: 0 <= k < l < |index| ==> index[k] < index[l]
    ensures forall i :: 0 <= i < |data| ==> (i in index <==> data[i].wtLoss != Missing)
    ensures forall k :: 0 <= k < |rows| ==> rows[k].wtLoss != Missing
  {
    rows := [];
    index := [];
    var i := 0;
    while i < |data|
      invariant 0 <= i <= |data|
      invariant |rows| == |index|
      invariant forall k :: 0 <= k < |index| ==> index[k] < i && rows[k] == CoxColumns(data[index[k]])
      invariant forall k, l :: 0 <= k < l < |index| ==> index[k] < index[l]
      invariant forall p :: 0 <= p < i ==> (p in index <==> data[p].wtLoss != Missing)
      invariant forall k :: 0 <= k < |index| ==> data[index[k]].wtLoss != Missing
    {
      if data[i].wtLoss != Missing {
        rows := rows + [CoxColumns(data[i])];
        index := index + [i];
      }
      i := i + 1;
    }
  }
}
