/**
 Text primitives shared by the other modules: decimal numerals, trimming,
 integer parsing and line splitting, as the Rust standard library defines them.
 Strings are sequences of Unicode scalar values.
 */
module Text {

  datatype Option<+T> = None | Some(value: T)

  type byte = b: int | 0 <= b < 256

  const U32_MAX: nat := 0xFFFF_FFFF
  const I32_MIN: int := -0x8000_0000
  const I32_MAX: int := 0x7FFF_FFFF

  // ----- decimal numerals -----

  predicate IsDigit(c: char) {
    '0' <= c <= '9'
  }

  predicate AllDigits(s: string) {
    forall i | 0 <= i < |s| :: IsDigit(s[i])
  }

  function DigitValue(c: char): (v: nat)
    requires IsDigit(c)
    ensures v < 10
  {
    c as int - '0' as int
  }

  function DigitChar(d: nat): (c: char)
    requires d < 10
    ensures IsDigit(c) && DigitValue(c) == d
  {
    (d + '0' as int) as char
  }

  /** The decimal numeral of `n`, without leading zeros. */
  function Decimal(n: nat): (s: string)
    ensures s != "" && AllDigits(s)
  {
    if n < 10 then [DigitChar(n)] else Decimal(n / 10) + [DigitChar(n % 10)]
  }

  /** The number a digit string denotes. */
  function NatOf(s: string): nat
    requires AllDigits(s)
  {
    if s == "" then 0 else NatOf(s[..|s| - 1]) * 10 + DigitValue(s[|s| - 1])
  }

  lemma {:induction false} NatOfDecimal(n: nat)
    ensures NatOf(Decimal(n)) == n
  {
    if n >= 10 {
      NatOfDecimal(n / 10);
      var s := Decimal(n);
      assert s[..|s| - 1] == Decimal(n / 10);
    }
  }

  /** Two numbers with the same numeral are equal. */
  lemma DecimalInjective(m: nat, n: nat)
    requires Decimal(m) == Decimal(n)
    ensures m == n
  {
    NatOfDecimal(m);
    NatOfDecimal(n);
  }

  /** The numeral of a possibly negative number. */
  function SignedDecimal(n: int): (s: string)
    ensures s != "" && '\n' !in s && '\r' !in s
    ensures !Whitespace(s[0]) && !Whitespace(s[|s| - 1])
  {
    if n < 0 then "-" + Decimal(-n) else Decimal(n)
  }

  // ----- trimming and parsing -----

  /** The Unicode White_Space property, which `str::trim` uses. */
  predicate Whitespace(c: char) {
    var u := c as int;
    || 0x09 <= u <= 0x0D || u == 0x20 || u == 0x85 || u == 0xA0 || u == 0x1680
    || 0x2000 <= u <= 0x200A || u == 0x2028 || u == 0x2029 || u == 0x202F
    || u == 0x205F || u == 0x3000
  }

  function TrimStart(s: string): string {
    if s != "" && Whitespace(s[0]) then TrimStart(s[1..]) else s
  }

  function TrimEnd(s: string): string {
    if s != "" && Whitespace(s[|s| - 1]) then TrimEnd(s[..|s| - 1]) else s
  }

  function Trim(s: string): string {
    TrimEnd(TrimStart(s))
  }

  /** Decimal parsing of an unsigned integer no larger than `max`; an optional
      plus sign is accepted, and overflow is an error. */
  function ParseUnsigned(s: string, max: nat): Option<nat> {
    var digits := if s != "" && s[0] == '+' then s[1..] else s;
    if digits != "" && AllDigits(digits) && NatOf(digits) <= max
    then Some(NatOf(digits)) else None
  }

  /** Decimal parsing of an i32. */
  function ParseI32(s: string): Option<int> {
    if s != "" && s[0] == '-' then
      var digits := s[1..];
      if digits != "" && AllDigits(digits) && 0 - NatOf(digits) >= I32_MIN
      then Some(0 - NatOf(digits)) else None
    else
      match ParseUnsigned(s, I32_MAX)
      case Some(n) => Some(n)
      case None => None
  }

  lemma ParseDecimal(n: nat, max: nat)
    requires n <= max
    ensures ParseUnsigned(Trim(Decimal(n)), max) == Some(n)
  {
    NatOfDecimal(n);
    assert IsDigit(Decimal(n)[0]);
  }

  lemma ParseSignedDecimal(n: int)
    requires I32_MIN <= n <= I32_MAX
    ensures ParseI32(Trim(SignedDecimal(n))) == Some(n)
  {
    if n < 0 {
      NatOfDecimal(-n);
      assert SignedDecimal(n)[1..] == Decimal(-n);
    } else {
      ParseDecimal(n, I32_MAX);
      assert IsDigit(Decimal(n)[0]);
    }
  }

  // ----- lines -----

  /** Index of the first line feed at or after `from`, or the length. */
  function LfFrom(s: string, from: nat): (i: nat)
    requires from <= |s|
    ensures from <= i <= |s|
    ensures forall k | from <= k < i :: s[k] != '\n'
    ensures i < |s| ==> s[i] == '\n'
    decreases |s| - from
  {
    if from == |s| || s[from] == '\n' then from else LfFrom(s, from + 1)
  }

  /** Index of the first line feed, or the length when there is none. */
  function FirstLf(s: string): nat {
    LfFrom(s, 0)
  }

  function StripCr(s: string): string {
    if s != "" && s[|s| - 1] == '\r' then s[..|s| - 1] else s
  }

  /** `str::lines`: split at LF or CR-LF; a final terminator adds no line, and
      a CR at the very end of the text stays. */
  function Lines(s: string): seq<string>
    decreases |s|
  {
    if s == "" then [] else
      var i := LfFrom(s, 0);
      if i == |s| then [s] else [StripCr(s[..i])] + Lines(s[i + 1..])
  }

  /** Joining with LF between the parts. */
  function Join(parts: seq<string>): string {
    if |parts| == 0 then "" else
    if |parts| == 1 then parts[0] else parts[0] + "\n" + Join(parts[1..])
  }

  lemma FirstLfOf(a: string, b: string)
    requires '\n' !in a
    ensures FirstLf(a + "\n" + b) == |a|
  {
    var s := a + "\n" + b;
    assert s[|a|] == '\n';
    assert forall k | 0 <= k < |a| :: s[k] == a[k];
  }

  /** A terminated first line splits off. */
  lemma LinesOfTerminated(a: string, b: string)
    requires '\n' !in a
    ensures Lines(a + "\n" + b) == [StripCr(a)] + Lines(b)
  {
    var s := a + "\n" + b;
    FirstLfOf(a, b);
    assert s[..|a|] == a;
    assert s[|a| + 1..] == b;
  }

  /** No CR-LF pair starts before position `n`. */
  predicate NoCrLfBefore(s: string, n: nat) {
    forall i | 0 <= i < n && i + 1 < |s| :: s[i] == '\r' ==> s[i + 1] != '\n'
  }

  /** Neither a CR-LF pair anywhere nor a LF at the end. */
  predicate LineClean(s: string) {
    NoCrLfBefore(s, |s|) && (s != "" ==> s[|s| - 1] != '\n')
  }

  /** How cleanliness of a text follows from its first line and the rest. */
  lemma LineCleanStep(a: string, b: string)
    requires '\n' !in a
    ensures LineClean(a + "\n" + b) <==> StripCr(a) == a && b != "" && LineClean(b)
  {
    var s := a + "\n" + b;
    assert s[|a|] == '\n';
    assert forall i | 0 <= i < |a| :: s[i] == a[i];
    ShiftedIndices(a, b);
    assert b != "" ==> s[|s| - 1] == b[|b| - 1];
    assert NoCrLfBefore(s, |s|) <==> StripCr(a) == a && NoCrLfBefore(b, |b|) by {
      if NoCrLfBefore(s, |s|) {
        assert a != "" ==> s[|a| - 1] == a[|a| - 1];
        forall i | 0 <= i < |b| && i + 1 < |b|
          ensures b[i] == '\r' ==> b[i + 1] != '\n'
        {
          assert s[|a| + 1 + i] == b[i] && s[|a| + 1 + i + 1] == b[i + 1];
        }
      }
    }
  }

  lemma ShiftedIndices(a: string, b: string)
    ensures forall i | |a| < i < |a| + 1 + |b| :: (a + "\n" + b)[i] == b[i - |a| - 1]
  {
  }

  /** Splitting into lines and joining them again gives the text back exactly
      when it has no CR-LF pair and no LF at the end; otherwise it is shorter. */
  lemma {:induction false} JoinLines(s: string)
    ensures LineClean(s) ==> Join(Lines(s)) == s
    ensures !LineClean(s) ==> |Join(Lines(s))| < |s|
    decreases |s|
  {
    if s != "" {
      var i := FirstLf(s);
      if i == |s| {
        assert s[..i] == s;
        assert LineClean(s);
      } else {
        var a, b := s[..i], s[i + 1..];
        assert s == a + "\n" + b;
        LineCleanStep(a, b);
        LinesOfTerminated(a, b);
        JoinLines(b);
        assert b == "" <==> Lines(b) == [];
        if b != "" {
          assert Lines(s)[1..] == Lines(b);
        }
      }
    }
  }
}
