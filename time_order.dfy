/**
 * The order the admin day views sort by: `a.time.localeCompare(b.time)`,
 * modelled as lexicographic order on character codes. On "HH:MM" strings made
 * of ASCII digits that order is the chronological one (TimeOrderIsChronological).
 */
module TimeOrder {

  /** a sorts no later than b, comparing character by character. */
  predicate Leq(a: string, b: string)
    decreases |a|
  {
    if a == [] then true
    else if b == [] then false
    else if a[0] != b[0] then a[0] < b[0]
    else Leq(a[1..], b[1..])
  }

  lemma {:induction false} LeqReflexive(a: string)
    ensures Leq(a, a)
    decreases |a|
  {
    if a != [] { LeqReflexive(a[1..]); }
  }

  lemma {:induction false} LeqTotal(a: string, b: string)
    ensures Leq(a, b) || Leq(b, a)
    decreases |a|
  {
    if a != [] && b != [] && a[0] == b[0] { LeqTotal(a[1..], b[1..]); }
  }

  lemma {:induction false} LeqTransitive(a: string, b: string, c: string)
    requires Leq(a, b) && Leq(b, c)
    ensures Leq(a, c)
    decreases |a|
  {
    if a != [] && b != [] && c != [] && a[0] == b[0] && b[0] == c[0] {
      LeqTransitive(a[1..], b[1..], c[1..]);
    }
  }

  lemma {:induction false} LeqAntisymmetric(a: string, b: string)
    requires Leq(a, b) && Leq(b, a)
    ensures a == b
    decreases |a|
  {
    if a != [] && b != [] {
      LeqAntisymmetric(a[1..], b[1..]);
      assert a == [a[0]] + a[1..] && b == [b[0]] + b[1..];
    }
  }

  predicate IsDigit(c: char) { '0' <= c <= '9' }

  function DigitValue(c: char): (d: int) { c as int - '0' as int }

  /** A well-formed "HH:MM" time of day: two hour digits, a colon, minutes 00-59. */
  predicate WellFormedTime(s: string)
  {
    |s| == 5 && IsDigit(s[0]) && IsDigit(s[1]) && s[2] == ':' &&
    '0' <= s[3] <= '5' && IsDigit(s[4])
  }

  /** Minutes past midnight of a well-formed time. */
  function Minutes(s: string): (m: int)
    requires WellFormedTime(s)
  {
    (DigitValue(s[0]) * 10 + DigitValue(s[1])) * 60 + DigitValue(s[3]) * 10 + DigitValue(s[4])
  }

  /** Unfolds Leq on two five-character strings into a comparison of their first differing position. */
  lemma LeqOnFive(a: string, b: string)
    requires |a| == 5 && |b| == 5
    ensures Leq(a, b) <==>
      if a[0] != b[0] then a[0] < b[0]
      else if a[1] != b[1] then a[1] < b[1]
      else if a[2] != b[2] then a[2] < b[2]
      else if a[3] != b[3] then a[3] < b[3]
      else a[4] <= b[4]
  {
    var a1, b1 := a[1..], b[1..];
    var a2, b2 := a1[1..], b1[1..];
    var a3, b3 := a2[1..], b2[1..];
    var a4, b4 := a3[1..], b3[1..];
    assert a4[1..] == [] && b4[1..] == [];
    assert Leq(a4, b4) <==> a[4] <= b[4];
    assert Leq(a3, b3) <==> if a[3] != b[3] then a[3] < b[3] else Leq(a4, b4);
    assert Leq(a2, b2) <==> if a[2] != b[2] then a[2] < b[2] else Leq(a3, b3);
    assert Leq(a1, b1) <==> if a[1] != b[1] then a[1] < b[1] else Leq(a2, b2);
  }

  /** On well-formed times the string order the views sort by is the order of the clock. */
  lemma TimeOrderIsChronological(a: string, b: string)
    requires WellFormedTime(a) && WellFormedTime(b)
    ensures Leq(a, b) <==> Minutes(a) <= Minutes(b)
  {
    LeqOnFive(a, b);
  }
}
