/**
 Comparing RFC 3339 timestamps in UTC with zero to nine fractional digits: the client compares the
 parsed milliseconds first, and only then the text with its fraction padded to nine digits.
 */
module Timestamps {

  type Digit = d: int | 0 <= d < 10

  /** The whole second, whose date text is canonical, and the digits after the point as written. */
  datatype Timestamp = Timestamp(seconds: int, fraction: seq<Digit>)

  predicate WellFormed(t: Timestamp) {
    |t.fraction| <= 9
  }

  function PowerOfTen(n: nat): int {
    if n == 0 then 1 else 10 * PowerOfTen(n - 1)
  }

  /** The number a digit string denotes. */
  function Value(digits: seq<Digit>): int {
    if digits == [] then 0 else digits[0] * PowerOfTen(|digits| - 1) + Value(digits[1..])
  }

  function Zeros(n: nat): seq<Digit> {
    seq(n, _ => 0)
  }

  /** Fractional digits filled up with zeros to nine. */
  function Padded(t: Timestamp): seq<Digit>
    requires WellFormed(t)
  {
    t.fraction + Zeros(9 - |t.fraction|)
  }

  /** The instant itself. */
  function Nanoseconds(t: Timestamp): int
    requires WellFormed(t)
  {
    t.seconds * 1_000_000_000 + Value(Padded(t))
  }

  /** The parsed time, which drops what lies below the millisecond. */
  function Milliseconds(t: Timestamp): int
    requires WellFormed(t)
  {
    t.seconds * 1000 + Value(Padded(t)[..3])
  }

  /** The collation order of two strings of digits. */
  function CompareText(a: seq<Digit>, b: seq<Digit>): int {
    if a == [] || b == [] then |a| - |b|
    else if a[0] != b[0] then a[0] - b[0]
    else CompareText(a[1..], b[1..])
  }

  /** Equal milliseconds mean equal whole seconds, so the texts differ in their padded fractions only. */
  function CompareProjectionTime(left: Timestamp, right: Timestamp): int
    requires WellFormed(left) && WellFormed(right)
  {
    if Milliseconds(left) != Milliseconds(right) then Milliseconds(left) - Milliseconds(right)
    else CompareText(Padded(left), Padded(right))
  }

  lemma {:induction false} ValueBounds(digits: seq<Digit>)
    ensures 0 <= Value(digits) < PowerOfTen(|digits|)
  {
    if digits != [] {
      ValueBounds(digits[1..]);
      var power := PowerOfTen(|digits| - 1);
      assert 0 <= digits[0] * power <= 9 * power;
    }
  }

  lemma Regroup(d: int, x: int, y: int, z: int)
    ensures (d * x + z) * y == d * (x * y) + z * y
  {
  }

  lemma {:induction false} ValueAppend(a: seq<Digit>, b: seq<Digit>)
    ensures Value(a + b) == Value(a) * PowerOfTen(|b|) + Value(b)
  {
    if a == [] {
      assert a + b == b;
    } else {
      assert (a + b)[1..] == a[1..] + b;
      ValueAppend(a[1..], b);
      PowersMultiply(|a| - 1, |b|);
      Regroup(a[0], PowerOfTen(|a| - 1), PowerOfTen(|b|), Value(a[1..]));
    }
  }

  lemma {:induction false} PowersMultiply(m: nat, n: nat)
    ensures PowerOfTen(m + n) == PowerOfTen(m) * PowerOfTen(n)
  {
    if m > 0 {
      PowersMultiply(m - 1, n);
    }
  }

  lemma FirstDigitDecides(d: int, e: int, power: int, x: int, y: int)
    requires d < e && x < power && 0 <= y && 0 <= power
    ensures d * power + x < e * power + y
  {
    assert d * power + power == (d + 1) * power <= e * power;
  }

  /** Digit strings of one length compare as the numbers they denote. */
  lemma {:induction false} TextOrderIsNumeric(a: seq<Digit>, b: seq<Digit>)
    requires |a| == |b|
    ensures CompareText(a, b) < 0 <==> Value(a) < Value(b)
    ensures CompareText(a, b) == 0 <==> Value(a) == Value(b)
  {
    if a != [] {
      TextOrderIsNumeric(a[1..], b[1..]);
      ValueBounds(a[1..]);
      ValueBounds(b[1..]);
      if a[0] < b[0] {
        FirstDigitDecides(a[0], b[0], PowerOfTen(|a| - 1), Value(a[1..]), Value(b[1..]));
      } else if a[0] > b[0] {
        FirstDigitDecides(b[0], a[0], PowerOfTen(|a| - 1), Value(b[1..]), Value(a[1..]));
      }
    }
  }

  lemma SplitAtMillisecond(t: Timestamp)
    requires WellFormed(t)
    ensures 1_000_000 * Milliseconds(t) <= Nanoseconds(t) < 1_000_000 * Milliseconds(t) + 1_000_000
  {
    var digits := Padded(t);
    assert digits == digits[..3] + digits[3..];
    ValueAppend(digits[..3], digits[3..]);
    ValueBounds(digits[3..]);
    assert PowerOfTen(6) == 1_000_000;
  }

  /** Equal milliseconds never hide different whole seconds. */
  lemma SameSecond(left: Timestamp, right: Timestamp)
    requires WellFormed(left) && WellFormed(right) && Milliseconds(left) == Milliseconds(right)
    ensures left.seconds == right.seconds
  {
    ValueBounds(Padded(left)[..3]);
    ValueBounds(Padded(right)[..3]);
    assert PowerOfTen(3) == 1000;
  }

  /** The comparison is the exact order of the instants, to the nanosecond. */
  lemma CompareIsExact(left: Timestamp, right: Timestamp)
    requires WellFormed(left) && WellFormed(right)
    ensures CompareProjectionTime(left, right) < 0 <==> Nanoseconds(left) < Nanoseconds(right)
    ensures CompareProjectionTime(left, right) == 0 <==> Nanoseconds(left) == Nanoseconds(right)
  {
    SplitAtMillisecond(left);
    SplitAtMillisecond(right);
    if Milliseconds(left) == Milliseconds(right) {
      SameSecond(left, right);
      TextOrderIsNumeric(Padded(left), Padded(right));
    }
  }
}
