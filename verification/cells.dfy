/**
 * The scalar values of the lung-cancer data frame and the order pandas'
 * sort_index puts category values in.
 */
module Cells {
  import opened Text

  /**
   * One entry of a column or of a table cell: pandas' NaN, a string, or an
   * integer. The integer-valued float columns of the data set (ph.ecog,
   * ph.karno, wt.loss, ...) are integers here.
   */
  datatype Cell = Missing | Str(s: string) | Int(n: int)

  /** Python's string order: code point by code point, a proper prefix first. */
  predicate StrLess(a: string, b: string)
    decreases |a|
  {
    |b| > 0 && (|a| == 0 || a[0] < b[0] || (a[0] == b[0] && StrLess(a[1..], b[1..])))
  }

  /**
   * The order of category values. Numbers compare numerically and strings as
   * Python compares them; a number sorts before a string. Missing is never
   * ordered: it is never a category.
   */
  predicate Less(a: Cell, b: Cell) {
    match (a, b)
    case (Int(x), Int(y)) => x < y
    case (Int(_), Str(_)) => true
    case (Str(x), Str(y)) => StrLess(x, y)
    case _ => false
  }

  lemma {:induction false} StrLessIrreflexive(a: string)
    ensures !StrLess(a, a)
  {
    if |a| > 0 {
      StrLessIrreflexive(a[1..]);
    }
  }

  lemma {:induction false} StrLessTransitive(a: string, b: string, c: string)
    requires StrLess(a, b) && StrLess(b, c)
    ensures StrLess(a, c)
  {
    if |a| > 0 && a[0] == b[0] && b[0] == c[0] {
      StrLessTransitive(a[1..], b[1..], c[1..]);
    }
  }

  lemma {:induction false} StrLessTotal(a: string, b: string)
    requires a != b
    ensures StrLess(a, b) || StrLess(b, a)
  {
    if |a| > 0 && |b| > 0 && a[0] == b[0] {
      assert a == [a[0]] + a[1..] && b == [b[0]] + b[1..];
      StrLessTotal(a[1..], b[1..]);
    }
  }

  /** No category value precedes itself. */
  lemma LessIrreflexive(a: Cell)
    ensures !Less(a, a)
  {
    if a.Str? {
      StrLessIrreflexive(a.s);
    }
  }

  lemma LessTransitive(a: Cell, b: Cell, c: Cell)
    requires Less(a, b) && Less(b, c)
    ensures Less(a, c)
  {
    if a.Str? && b.Str? && c.Str? {
      StrLessTransitive(a.s, b.s, c.s);
    }
  }

  /** Any two distinct category values are ordered one way or the other. */
  lemma LessTotal(a: Cell, b: Cell)
    requires a != Missing && b != Missing && a != b
    ensures Less(a, b) || Less(b, a)
  {
    if a.Str? && b.Str? {
      StrLessTotal(a.s, b.s);
    }
  }

  /** Strictly increasing in the category order, hence free of repeats. */
  predicate Ascending(s: seq<Cell>) {
    forall i, j :: 0 <= i < j < |s| ==> Less(s[i], s[j])
  }

  /** The row label a category value gets in a frequency fragment. */
  function Show(c: Cell): string {
    match c
    case Missing => "nan"
    case Str(s) => s
    case Int(n) => IntText(n)
  }
}
