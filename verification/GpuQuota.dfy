/**
 How many GPUs a job asks for (crates/scheduler/src/lib.rs,
 parse_gpu_requirement).
 */
module GpuQuota {
  import opened Text

  function ToAsciiLower(s: string): string {
    seq(|s|, i requires 0 <= i < |s| => if 'A' <= s[i] <= 'Z' then (s[i] as int + 32) as char else s[i])
  }

  /** The first digit at or after `from`, or the length. */
  function FirstDigit(s: string, from: nat): (i: nat)
    requires from <= |s|
    ensures from <= i <= |s| && (i < |s| ==> IsDigit(s[i]))
    ensures forall k | from <= k < i :: !IsDigit(s[k])
    decreases |s| - from
  {
    if from == |s| || IsDigit(s[from]) then from else FirstDigit(s, from + 1)
  }

  /** The end of the run of digits starting at `from`. */
  function DigitsEnd(s: string, from: nat): (i: nat)
    requires from <= |s|
    ensures from <= i <= |s| && (i < |s| ==> !IsDigit(s[i]))
    ensures AllDigits(s[from..i])
    decreases |s| - from
  {
    if from == |s| || !IsDigit(s[from]) then from else DigitsEnd(s, from + 1)
  }

  /** GPUs a job needs: the first integer in its quota, at least 1, and 1 when
      there is none or it does not fit 32 bits. */
  function GpuRequirement(quota: string): (n: nat)
    ensures 1 <= n <= U32_MAX
  {
    var s := ToAsciiLower(Trim(quota));
    if s == "" then 1 else
      var i := FirstDigit(s, 0);
      var digits := s[i..DigitsEnd(s, i)];
      if digits == "" then 1 else
      match ParseUnsigned(digits, U32_MAX)
      case None => 1
      case Some(n) => if n < 1 then 1 else n
  }

  predicate NoDigits(s: string) {
    forall k | 0 <= k < |s| :: !IsDigit(s[k])
  }

  lemma FirstNumeralCounts(quota: string, tag: string, num: string, unit: string)
    requires ToAsciiLower(Trim(quota)) == tag + num + unit && num != "" && AllDigits(num)
    requires NoDigits(tag) && (unit != "" ==> !IsDigit(unit[0]))
    ensures GpuRequirement(quota) == if 1 <= NatOf(num) <= 0xFFFF_FFFF then NatOf(num) else 1
  {
    assert IsDigit(num[0]);
    DigitsBetween(tag, num, unit);
  }

  /** The first run of digits in a quota counts, whatever comes before and after
      it, in any case and with any blanks around: it is the number of GPUs, unless
      it is 0 or does not fit 32 bits. */
  lemma GpuRequirementOfDigits(tag: string, num: string, unit: string)
    requires num != "" && AllDigits(num) && NoDigits(tag) && (unit != "" ==> !IsDigit(unit[0]))
    ensures GpuRequirement(tag + num + unit) == if 1 <= NatOf(num) <= 0xFFFF_FFFF then NatOf(num) else 1
  {
    var front, back := TrimStart(tag), TrimEnd(unit);
    assert IsDigit(num[0]) && IsDigit(num[|num| - 1]);
    TrimAround(tag, num, unit);
    LowerParts(front, num, back);
    FrontHasNoDigits(tag);
    BackStartsPlain(unit);
    FirstNumeralCounts(tag + num + unit, ToAsciiLower(front), num, ToAsciiLower(back));
  }

  /** Every notation the documentation lists: a tag, a numeral, a unit. */
  lemma GpuRequirementOfNumeral(tag: string, n: nat, unit: string)
    requires n <= U32_MAX && NoDigits(tag) && (unit != "" ==> !IsDigit(unit[0]))
    ensures GpuRequirement(tag + Decimal(n) + unit) == if n == 0 then 1 else n
  {
    GpuRequirementOfDigits(tag, Decimal(n), unit);
    NatOfDecimal(n);
  }

  /** Without any digit the default is one GPU. */
  lemma GpuRequirementByDefault(quota: string)
    requires NoDigits(quota)
    ensures GpuRequirement(quota) == 1
  {
    var s := ToAsciiLower(Trim(quota));
    TrimStartSuffix(quota);
    SuffixHasNoDigits(quota, TrimStart(quota));
    TrimEndPrefix(TrimStart(quota));
    LowerHasNoDigits(Trim(quota));
    if s != "" {
      assert FirstDigit(s, 0) == |s|;
    }
  }

  lemma LowerHasNoDigits(s: string)
    requires NoDigits(s)
    ensures NoDigits(ToAsciiLower(s))
  {
  }

  lemma SuffixHasNoDigits(s: string, t: string)
    requires NoDigits(s) && |t| <= |s| && t == s[|s| - |t|..]
    ensures NoDigits(t)
  {
    assert forall k | 0 <= k < |t| :: t[k] == s[|s| - |t| + k];
  }

  lemma FrontHasNoDigits(tag: string)
    requires NoDigits(tag)
    ensures NoDigits(ToAsciiLower(TrimStart(tag)))
  {
    TrimStartSuffix(tag);
    SuffixHasNoDigits(tag, TrimStart(tag));
    LowerHasNoDigits(TrimStart(tag));
  }

  lemma BackStartsPlain(unit: string)
    requires unit != "" ==> !IsDigit(unit[0])
    ensures var back := ToAsciiLower(TrimEnd(unit)); back != "" ==> !IsDigit(back[0])
  {
    TrimEndPrefix(unit);
  }

  lemma LowerParts(a: string, num: string, b: string)
    requires AllDigits(num)
    ensures ToAsciiLower(a + num + b) == ToAsciiLower(a) + num + ToAsciiLower(b)
  {
  }

  lemma TrimAround(a: string, num: string, b: string)
    requires num != "" && !Whitespace(num[0]) && !Whitespace(num[|num| - 1])
    ensures Trim(a + num + b) == TrimStart(a) + num + TrimEnd(b)
  {
    TrimStartStops(a, num + b);
    assert a + num + b == a + (num + b);
    var front := TrimStart(a);
    assert front + num + b == front + (num + b);
    TrimEndStops(front + num, b);
  }

  lemma {:induction false} TrimStartStops(a: string, rest: string)
    requires rest != "" && !Whitespace(rest[0])
    ensures TrimStart(a + rest) == TrimStart(a) + rest
    decreases |a|
  {
    if a == "" {
      assert a + rest == rest;
    } else {
      assert (a + rest)[1..] == a[1..] + rest;
      TrimStartStops(a[1..], rest);
    }
  }

  lemma {:induction false} TrimEndStops(rest: string, b: string)
    requires rest != "" && !Whitespace(rest[|rest| - 1])
    ensures TrimEnd(rest + b) == rest + TrimEnd(b)
    decreases |b|
  {
    var s := rest + b;
    if b == "" {
      assert s == rest;
    } else {
      assert s[..|s| - 1] == rest + b[..|b| - 1];
      TrimEndStops(rest, b[..|b| - 1]);
    }
  }

  lemma {:induction false} TrimStartSuffix(s: string)
    ensures |TrimStart(s)| <= |s| && TrimStart(s) == s[|s| - |TrimStart(s)|..]
  {
    if s != "" && Whitespace(s[0]) {
      TrimStartSuffix(s[1..]);
    }
  }

  lemma {:induction false} TrimEndPrefix(s: string)
    ensures TrimEnd(s) <= s
  {
    if s != "" && Whitespace(s[|s| - 1]) {
      TrimEndPrefix(s[..|s| - 1]);
    }
  }

  lemma DigitsBetween(tag: string, num: string, unit: string)
    requires forall k | 0 <= k < |tag| :: !IsDigit(tag[k])
    requires num != "" && AllDigits(num)
    requires unit != "" ==> !IsDigit(unit[0])
    ensures var s := tag + num + unit;
            FirstDigit(s, 0) == |tag| && s[|tag|..DigitsEnd(s, |tag|)] == num
  {
    var s := tag + num + unit;
    var e := |tag| + |num|;
    assert forall k | 0 <= k < |tag| :: s[k] == tag[k];
    assert forall k | |tag| <= k < e :: s[k] == num[k - |tag|];
    assert unit != "" ==> s[e] == unit[0];
    DigitsEndIs(s, |tag|, e);
  }

  lemma {:induction false} DigitsEndIs(s: string, from: nat, e: nat)
    requires from <= e <= |s| && (forall k | from <= k < e :: IsDigit(s[k]))
    requires e < |s| ==> !IsDigit(s[e])
    ensures DigitsEnd(s, from) == e
    decreases e - from
  {
    if from < e {
      DigitsEndIs(s, from + 1, e);
    }
  }
}
