/** How many of n resources the count and percent flags select. The division and rounding the code does
    in floating point are exact here. */
module Counting {

  /** A flag after strconv.Atoi: missing, not a number, or a number. */
  datatype Flag = Unset | Bad | Num(value: int)

  datatype Count = Counted(value: int) | Illegal

  const MAX_INT32: int := 0x7fff_ffff

  /** v / 100 rounded to the nearest integer, ties away from zero. */
  function RoundHundredths(v: int): (r: int)
    ensures -50 <= 100 * r - v <= 50
    ensures 100 * r - v == 50 ==> v > 0
    ensures 100 * r - v == -50 ==> v < 0
  {
    if v >= 0 then (v + 50) / 100 else -((-v + 50) / 100)
  }

  /** Those three facts leave no other choice. */
  lemma RoundUnique(v: int, r: int)
    requires -50 <= 100 * r - v <= 50
    requires (100 * r - v == 50 ==> v > 0) && (100 * r - v == -50 ==> v < 0)
    ensures r == RoundHundredths(v)
  {
    var q := RoundHundredths(v);
    assert -100 <= 100 * r - 100 * q <= 100;
  }

  predicate Usable(f: Flag) { f.Unset? || (f.Num? && f.value != 0) }

  function CountOf(f: Flag): int { if f.Num? then f.value else MAX_INT32 }

  function PercentOf(f: Flag): int { if f.Num? then f.value else 100 }

  /** GetResourceCount. */
  function GetResourceCount(n: nat, count: Flag, percent: Flag): Count {
    if n == 0 then Counted(0)
    else if !Usable(count) || !Usable(percent) then Illegal
    else
      var share := RoundHundredths(PercentOf(percent) * n);
      var c := if CountOf(count) > share then share else CountOf(count);
      Counted(if c > n then n else c)
  }

  predicate Positive(f: Flag) { f.Unset? || (f.Num? && f.value > 0) }

  function Min(a: int, b: int): int { if a <= b then a else b }

  /** With positive or missing flags: never an error, and exactly the least of the number there is, the
      count flag, and the rounded share of the percent flag. A missing percent flag bounds nothing; a
      missing count flag bounds by the largest 32-bit integer. */
  lemma CountIsLeast(n: nat, count: Flag, percent: Flag)
    requires n > 0
    requires (count.Unset? || (count.Num? && count.value > 0)) && (percent.Unset? || (percent.Num? && percent.value > 0))
    ensures var r := GetResourceCount(n, count, percent);
            && r.Counted? && 0 <= r.value <= n
            && (count.Unset? && percent.Unset? ==> r.value == Min(n, 0x7fff_ffff))
            && (count.Num? && percent.Unset? ==> r.value == Min(n, count.value))
            && (count.Unset? && percent.Num? ==>
                  r.value == Min(n, Min(0x7fff_ffff, RoundHundredths(percent.value * n))))
            && (count.Num? && percent.Num? ==>
                  r.value == Min(n, Min(count.value, RoundHundredths(percent.value * n))))
  {
    if percent.Num? {
      assert percent.value * n >= 0;
    } else {
      assert RoundHundredths(100 * n) == n;
    }
  }

  lemma RoundMonotone(v: int, w: int)
    requires v <= w
    ensures RoundHundredths(v) <= RoundHundredths(w)
  {
  }

  lemma CountMonotone(n: nat, m: nat, count: Flag, count': Flag, percent: Flag, percent': Flag)
    requires 0 < n <= m
    requires Positive(count) && Positive(count') && CountOf(count) <= CountOf(count')
    requires Positive(percent) && Positive(percent') && PercentOf(percent) <= PercentOf(percent')
    ensures GetResourceCount(n, count, percent).value <= GetResourceCount(m, count', percent').value
  {
    assert PercentOf(percent) * n <= PercentOf(percent') * n <= PercentOf(percent') * m;
    RoundMonotone(PercentOf(percent) * n, PercentOf(percent') * m);
  }

  /** Zero is refused but negative numbers are not: the result is a usable slice bound exactly when the
      count is not negative and the percentage does not round below zero. */
  lemma CountUsable(n: nat, count: Flag, percent: Flag)
    ensures n == 0 ==> GetResourceCount(n, count, percent) == Counted(0)
    ensures n > 0 ==>
              var r := GetResourceCount(n, count, percent);
              && (r.Illegal? <==> count.Bad? || count == Num(0) || percent.Bad? || percent == Num(0))
              && (r.Counted? ==> r.value <= n)
              && (r.Counted? ==>
                    (0 <= r.value <==> (count.Num? ==> count.value >= 0) && (percent.Num? ==> percent.value * n > -50)))
  {
  }

  function Sum(ns: seq<nat>): nat { if ns == [] then 0 else ns[0] + Sum(ns[1..]) }

  function SumCounts(ns: seq<nat>, count: Flag, percent: Flag): int
    requires Positive(count) && Positive(percent)
  {
    if ns == [] then 0
    else GetResourceCount(ns[0], count, percent).value + SumCounts(ns[1..], count, percent)
  }

  /** Counting group by group never selects more than there is. */
  lemma {:induction false} SumBounded(ns: seq<nat>, count: Flag, percent: Flag)
    requires Positive(count) && Positive(percent)
    ensures 0 <= SumCounts(ns, count, percent) <= Sum(ns)
    decreases |ns|
  {
    if ns != [] {
      SumBounded(ns[1..], count, percent);
      if ns[0] > 0 {
        CountIsLeast(ns[0], count, percent);
      }
    }
  }
}
