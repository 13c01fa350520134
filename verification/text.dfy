/**
 * The text forms the table builders write into cells: decimal numerals, and
 * the parenthesised shape "<head> (<part>, <part>, ...)" of every statistic
 * cell ("61.2 (9.1)", "63.0 (56.0, 69.0)", "138 (60.0)"). Each format comes
 * with its reader and a round-trip lemma.
 */
module Text {
  import opened Base

  /** The characters that delimit the parts of a statistic cell. */
  predicate Separator(c: char) {
    c == ' ' || c == '(' || c == ')' || c == ','
  }

  /**
   * A text free of separators. Every rendering of a number is plain
   * ("12", "-0.5", "nan", "1e-05").
   */
  predicate Plain(s: string) {
    forall i :: 0 <= i < |s| ==> !Separator(s[i])
  }

  predicate IsDigit(c: char) {
    '0' <= c <= '9'
  }

  predicate AllDigits(s: string) {
    forall i :: 0 <= i < |s| ==> IsDigit(s[i])
  }

  function DigitChar(d: nat): (c: char)
    requires d < 10
    ensures IsDigit(c)
  {
    ('0' as int + d) as char
  }

  function DigitValue(c: char): (d: nat)
    requires IsDigit(c)
    ensures d < 10
  {
    c as int - '0' as int
  }

  /** Decimal rendering of a count, as Python's str() writes an int. */
  function NatText(n: nat): (s: string)
    ensures |s| > 0
    ensures AllDigits(s)
  {
    if n < 10 then [DigitChar(n)] else NatText(n / 10) + [DigitChar(n % 10)]
  }

  /** Decimal rendering of an integer with a leading minus when negative. */
  function IntText(n: int): (s: string)
    ensures |s| > 0
    ensures (n < 0) <==> s[0] == '-'
  {
    if n < 0 then "-" + NatText(-n) else NatText(n)
  }

  /** The value of a run of decimal digits, most significant first. */
  function DigitsValue(s: string): nat
    requires AllDigits(s)
  {
    if |s| == 0 then 0 else DigitsValue(s[..|s| - 1]) * 10 + DigitValue(s[|s| - 1])
  }

  /** Reads a decimal numeral; None unless `s` is a non-empty run of digits. */
  function ParseNat(s: string): Option<nat> {
    if |s| > 0 && AllDigits(s) then Some(DigitsValue(s)) else None
  }

  lemma {:induction false} DigitsValueOfNatText(n: nat)
    ensures DigitsValue(NatText(n)) == n
  {
    var s := NatText(n);
    if n < 10 {
      assert s[..|s| - 1] == [];
    } else {
      assert s[..|s| - 1] == NatText(n / 10);
      DigitsValueOfNatText(n / 10);
    }
  }

  /** Reading back a rendered count gives the count. */
  lemma NatTextRoundTrip(n: nat)
    ensures ParseNat(NatText(n)) == Some(n)
  {
    DigitsValueOfNatText(n);
  }

  /** Numerals are plain, so a count can stand as a part of a statistic cell. */
  lemma NatTextIsPlain(n: nat)
    ensures Plain(NatText(n))
  {
    var s := NatText(n);
    forall i | 0 <= i < |s|
      ensures !Separator(s[i])
    {
      assert IsDigit(s[i]);
    }
  }

  /** The parts of a cell joined by ", ". */
  function JoinParts(parts: seq<string>): string {
    if |parts| == 0 then ""
    else if |parts| == 1 then parts[0]
    else parts[0] + ", " + JoinParts(parts[1..])
  }

  /** "<head> (<p1>, <p2>, ...)", the shape of every statistic cell. */
  function Paren(head: string, parts: seq<string>): string {
    head + " (" + JoinParts(parts) + ")"
  }

  /** Position of the first `c` in `s`, or |s| when there is none. */
  function IndexOf(s: string, c: char): (i: nat)
    ensures i <= |s|
    ensures i < |s| ==> s[i] == c
    ensures forall k :: 0 <= k < i ==> s[k] != c
  {
    if |s| == 0 then 0 else if s[0] == c then 0 else 1 + IndexOf(s[1..], c)
  }

  /** Splits a ", "-separated list; None when a comma is not followed by a space. */
  function SplitParts(s: string): Option<seq<string>>
    decreases |s|
  {
    var j := IndexOf(s, ',');
    if j == |s| then Some([s])
    else if j + 1 < |s| && s[j + 1] == ' ' then
      match SplitParts(s[j + 2..])
      case None => None
      case Some(rest) => Some([s[..j]] + rest)
    else None
  }

  /** Reads "<head> (<parts>)" back into its head and parts. */
  function Unparen(s: string): Option<(string, seq<string>)> {
    var i := IndexOf(s, '(');
    if 1 <= i && i + 1 < |s| && s[i - 1] == ' ' && s[|s| - 1] == ')' then
      match SplitParts(s[i + 1..|s| - 1])
      case None => None
      case Some(parts) => Some((s[..i - 1], parts))
    else None
  }

  lemma {:induction false} IndexOfFirst(s: string, c: char, i: nat)
    requires i < |s| && s[i] == c
    requires forall k :: 0 <= k < i ==> s[k] != c
    ensures IndexOf(s, c) == i
  {
    if i > 0 {
      IndexOfFirst(s[1..], c, i - 1);
    }
  }

  lemma {:induction false} IndexOfAbsent(x: string, c: char)
    requires forall k :: 0 <= k < |x| ==> x[k] != c
    ensures IndexOf(x, c) == |x|
  {
    if |x| > 0 {
      IndexOfAbsent(x[1..], c);
    }
  }

  lemma SplitSingle(p: string)
    requires Plain(p)
    ensures SplitParts(p) == Some([p])
  {
    IndexOfAbsent(p, ',');
  }

  lemma SplitStep(p: string, rest: string)
    requires Plain(p)
    ensures SplitParts(p + ", " + rest)
         == match SplitParts(rest) case None => None case Some(ps) => Some([p] + ps)
  {
    var s := p + ", " + rest;
    IndexOfFirst(s, ',', |p|);
    assert s[..|p|] == p;
    assert s[|p| + 2..] == rest;
  }

  lemma {:induction false} SplitJoinRoundTrip(parts: seq<string>)
    requires |parts| > 0
    requires forall k :: 0 <= k < |parts| ==> Plain(parts[k])
    ensures SplitParts(JoinParts(parts)) == Some(parts)
  {
    if |parts| == 1 {
      SplitSingle(parts[0]);
      assert parts == [parts[0]];
    } else {
      SplitJoinRoundTrip(parts[1..]);
      SplitStep(parts[0], JoinParts(parts[1..]));
      assert [parts[0]] + parts[1..] == parts;
    }
  }

  /** A cell written by Paren reads back as its head and parts when they are plain. */
  lemma ParenRoundTrip(head: string, parts: seq<string>)
    requires Plain(head)
    requires |parts| > 0
    requires forall k :: 0 <= k < |parts| ==> Plain(parts[k])
    ensures Unparen(Paren(head, parts)) == Some((head, parts))
  {
    var body := JoinParts(parts);
    var s := Paren(head, parts);
    assert s[|head| + 1] == '(';
    IndexOfFirst(s, '(', |head| + 1);
    assert s[..|head|] == head;
    assert s[|head| + 2..|s| - 1] == body;
    SplitJoinRoundTrip(parts);
  }
}
