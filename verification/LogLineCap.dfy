/**
 The server's own cap on a log line (crates/server/src/grpc.rs, cap_log_line):
 cut at a UTF-8 boundary and mark the line.
 */
module LogLineCap {
  import opened Text

  const MAX_LOG_LINE_BYTES: nat := 64 * 1024

  /** " ...[truncated]" in ASCII. */
  const MARK: seq<byte> := [32, 46, 46, 46, 91, 116, 114, 117, 110, 99, 97, 116, 101, 100, 93]

  predicate Continuation(b: byte) {
    0x80 <= b < 0xC0
  }

  /** Length of the well-formed character at the front of `s`, or 0 when there
      is none: the UTF8-octets grammar in section 4 of RFC 3629, which restates
      the encoding of section 3. */
  function CharLength(s: seq<byte>): (n: nat)
    ensures n <= 4 && n <= |s|
    ensures n > 0 ==> !Continuation(s[0])
    ensures forall i | 1 <= i < n :: Continuation(s[i])
  {
    if |s| >= 1 && s[0] < 0x80 then 1
    else if |s| >= 2 && 0xC2 <= s[0] <= 0xDF && Continuation(s[1]) then 2
    else if |s| >= 3 && Continuation(s[1]) && Continuation(s[2])
            && ((s[0] == 0xE0 && s[1] >= 0xA0) || 0xE1 <= s[0] <= 0xEC
                || (s[0] == 0xED && s[1] <= 0x9F) || 0xEE <= s[0] <= 0xEF) then 3
    else if |s| >= 4 && Continuation(s[1]) && Continuation(s[2]) && Continuation(s[3])
            && ((s[0] == 0xF0 && s[1] >= 0x90) || 0xF1 <= s[0] <= 0xF3
                || (s[0] == 0xF4 && s[1] <= 0x8F)) then 4
    else 0
  }

  predicate ValidUtf8(s: seq<byte>)
    decreases |s|
  {
    s == [] || (CharLength(s) > 0 && ValidUtf8(s[CharLength(s)..]))
  }

  // ----- the same, by the values encoded -----

  /** Unicode scalar values: code points other than surrogates. */
  type Scalar = c: int | 0 <= c < 0xD800 || 0xE000 <= c < 0x11_0000

  /** The encoding of section 3 of RFC 3629: the bits of the value, six to each
      continuation byte. */
  function EncodeScalar(c: Scalar): (s: seq<byte>)
    ensures 1 <= |s| <= 4
  {
    if c < 0x80 then [c]
    else if c < 0x800 then [0xC0 + c / 0x40, 0x80 + c % 0x40]
    else if c < 0x1_0000 then [0xE0 + c / 0x1000, 0x80 + c / 0x40 % 0x40, 0x80 + c % 0x40]
    else [0xF0 + c / 0x4_0000, 0x80 + c / 0x1000 % 0x40, 0x80 + c / 0x40 % 0x40, 0x80 + c % 0x40]
  }

  function EncodeText(text: seq<Scalar>): seq<byte> {
    if text == [] then [] else EncodeScalar(text[0]) + EncodeText(text[1..])
  }

  /** The six bits of a continuation byte. */
  function Bits(b: byte): int {
    b - 0x80
  }

  /** The value encoded at the front of `s`. */
  function DecodeScalar(s: seq<byte>): (c: Scalar)
    requires CharLength(s) > 0
  {
    var n := CharLength(s);
    var lead: int := s[0];
    if n == 1 then lead
    else if n == 2 then (lead - 0xC0) * 0x40 + Bits(s[1])
    else if n == 3 then (lead - 0xE0) * 0x1000 + Bits(s[1]) * 0x40 + Bits(s[2])
    else (lead - 0xF0) * 0x4_0000 + Bits(s[1]) * 0x1000 + Bits(s[2]) * 0x40 + Bits(s[3])
  }

  lemma TwoDigits(a: int, b: int)
    requires 0 <= b < 0x40
    ensures var c := a * 0x40 + b; c / 0x40 == a && c % 0x40 == b
  {
  }

  lemma ThreeDigits(a: int, b: int, d: int)
    requires 0 <= b < 0x40 && 0 <= d < 0x40
    ensures var c := a * 0x1000 + b * 0x40 + d; c / 0x1000 == a && c / 0x40 % 0x40 == b && c % 0x40 == d
  {
    TwoDigits(a * 0x40 + b, d);
    TwoDigits(a, b);
  }

  lemma FourDigits(a: int, b: int, d: int, e: int)
    requires 0 <= b < 0x40 && 0 <= d < 0x40 && 0 <= e < 0x40
    ensures var c := a * 0x4_0000 + b * 0x1000 + d * 0x40 + e;
            c / 0x4_0000 == a && c / 0x1000 % 0x40 == b && c / 0x40 % 0x40 == d && c % 0x40 == e
  {
    ThreeDigits(a * 0x40 + b, d, e);
    TwoDigits(a, b);
  }

  lemma EncodeTwo(c: Scalar, a: byte, b: byte)
    requires 0xC2 <= a <= 0xDF && Continuation(b) && c == (a as int - 0xC0) * 0x40 + Bits(b)
    ensures EncodeScalar(c) == [a, b]
  {
    TwoDigits(a as int - 0xC0, Bits(b));
  }

  lemma EncodeThree(c: Scalar, a: byte, b: byte, d: byte)
    requires 0xE0 <= a <= 0xEF && Continuation(b) && Continuation(d) && (a == 0xE0 ==> b >= 0xA0)
    requires c == (a as int - 0xE0) * 0x1000 + Bits(b) * 0x40 + Bits(d)
    ensures EncodeScalar(c) == [a, b, d]
  {
    ThreeDigits(a as int - 0xE0, Bits(b), Bits(d));
  }

  lemma EncodeFour(c: Scalar, a: byte, b: byte, d: byte, e: byte)
    requires 0xF0 <= a <= 0xF4 && Continuation(b) && Continuation(d) && Continuation(e) && (a == 0xF0 ==> b >= 0x90)
    requires c == (a as int - 0xF0) * 0x4_0000 + Bits(b) * 0x1000 + Bits(d) * 0x40 + Bits(e)
    ensures EncodeScalar(c) == [a, b, d, e]
  {
    FourDigits(a as int - 0xF0, Bits(b), Bits(d), Bits(e));
  }

  lemma DecodedEncodes(s: seq<byte>)
    requires CharLength(s) > 0
    ensures EncodeScalar(DecodeScalar(s)) == s[..CharLength(s)]
  {
    var n, c := CharLength(s), DecodeScalar(s);
    if n == 2 {
      EncodeTwo(c, s[0], s[1]);
    } else if n == 3 {
      EncodeThree(c, s[0], s[1], s[2]);
    } else if n == 4 {
      EncodeFour(c, s[0], s[1], s[2], s[3]);
    }
  }

  lemma TwoAreChar(s: seq<byte>)
    requires |s| >= 2 && 0xC2 <= s[0] <= 0xDF && Continuation(s[1])
    ensures CharLength(s) == 2
  {
  }

  lemma ThreeAreChar(s: seq<byte>)
    requires |s| >= 3 && 0xE0 <= s[0] <= 0xEF && Continuation(s[1]) && Continuation(s[2])
    requires (s[0] == 0xE0 ==> s[1] >= 0xA0) && (s[0] == 0xED ==> s[1] <= 0x9F)
    ensures CharLength(s) == 3
  {
  }

  lemma FourAreChar(s: seq<byte>)
    requires |s| >= 4 && 0xF0 <= s[0] <= 0xF4 && Continuation(s[1]) && Continuation(s[2]) && Continuation(s[3])
    requires (s[0] == 0xF0 ==> s[1] >= 0x90) && (s[0] == 0xF4 ==> s[1] <= 0x8F)
    ensures CharLength(s) == 4
  {
  }

  lemma EncodedIsChar(c: Scalar, rest: seq<byte>)
    ensures CharLength(EncodeScalar(c) + rest) == |EncodeScalar(c)|
  {
    var s := EncodeScalar(c) + rest;
    if 0x80 <= c < 0x800 {
      TwoAreChar(s);
    } else if 0x800 <= c < 0x1_0000 {
      ThreeAreChar(s);
    } else if 0x1_0000 <= c {
      FourAreChar(s);
    }
  }

  lemma EncodeFirst(c: Scalar, rest: seq<Scalar>)
    ensures EncodeText([c] + rest) == EncodeScalar(c) + EncodeText(rest)
  {
    assert ([c] + rest)[1..] == rest;
  }

  lemma JoinDecoded(s: seq<byte>, n: nat, c: Scalar, rest: seq<Scalar>)
    requires n <= |s| && EncodeScalar(c) == s[..n] && EncodeText(rest) == s[n..]
    ensures EncodeText([c] + rest) == s
  {
    EncodeFirst(c, rest);
    assert s[..n] + s[n..] == s;
  }

  lemma {:induction false} ValidDecodes(s: seq<byte>) returns (text: seq<Scalar>)
    requires ValidUtf8(s)
    ensures EncodeText(text) == s
    decreases |s|
  {
    if s == [] {
      text := [];
    } else {
      var n := CharLength(s);
      var rest := ValidDecodes(s[n..]);
      text := [DecodeScalar(s)] + rest;
      DecodedEncodes(s);
      JoinDecoded(s, n, DecodeScalar(s), rest);
    }
  }

  lemma {:induction false} EncodedIsValid(text: seq<Scalar>)
    ensures ValidUtf8(EncodeText(text))
    decreases |text|
  {
    if text != [] {
      var c, rest := EncodeScalar(text[0]), EncodeText(text[1..]);
      EncodedIsValid(text[1..]);
      EncodedIsChar(text[0], rest);
      assert (c + rest)[|c|..] == rest;
    }
  }

  /** Valid UTF-8 is exactly what encodes some sequence of scalar values. */
  lemma ValidUtf8Iff(s: seq<byte>)
    ensures ValidUtf8(s) <==> exists text :: EncodeText(text) == s
  {
    if ValidUtf8(s) {
      var text := ValidDecodes(s);
    }
    if text :| EncodeText(text) == s {
      EncodedIsValid(text);
    }
  }

  // ----- boundaries -----

  /** `str::is_char_boundary`: the ends, or a byte that is no continuation. */
  predicate IsBoundary(s: seq<byte>, i: nat) {
    i == 0 || i == |s| || (i < |s| && !Continuation(s[i]))
  }

  /** The length of the first character depends on that character alone. */
  lemma CharLengthOfPrefix(s: seq<byte>, i: nat)
    requires i <= |s|
    ensures CharLength(s) > 0 && CharLength(s) <= i ==> CharLength(s[..i]) == CharLength(s)
    ensures CharLength(s[..i]) > 0 ==> CharLength(s[..i]) == CharLength(s)
  {
    assert forall k | 0 <= k < i :: s[..i][k] == s[k];
  }

  /** In valid text the boundaries are exactly the valid prefixes. */
  lemma {:induction false} BoundaryIffValidPrefix(s: seq<byte>, i: nat)
    requires ValidUtf8(s) && i <= |s|
    ensures IsBoundary(s, i) <==> ValidUtf8(s[..i])
    decreases |s|
  {
    if i == 0 || i == |s| {
      assert i == |s| ==> s[..i] == s;
    } else {
      var n := CharLength(s);
      CharLengthOfPrefix(s, i);
      if i >= n {
        BoundaryIffValidPrefix(s[n..], i - n);
        assert s[n..][..i - n] == s[..i][n..];
        assert i > n ==> s[n..][i - n] == s[i];
        assert i == n ==> s[..i][n..] == [];
        if i == n {
          assert !Continuation(s[n..][0]);
        }
      }
    }
  }

  /** Valid texts concatenate. */
  lemma {:induction false} ConcatValid(a: seq<byte>, b: seq<byte>)
    requires ValidUtf8(a) && ValidUtf8(b)
    ensures ValidUtf8(a + b)
    decreases |a|
  {
    if a == [] {
      assert a + b == b;
    } else {
      var n := CharLength(a);
      ConcatValid(a[n..], b);
      assert (a + b)[..|a|] == a;
      CharLengthOfPrefix(a + b, |a|);
      assert (a + b)[n..] == a[n..] + b;
    }
  }

  lemma {:induction false} AsciiIsValid(s: seq<byte>)
    requires forall i | 0 <= i < |s| :: s[i] < 0x80
    ensures ValidUtf8(s)
    decreases |s|
  {
    if s != [] {
      AsciiIsValid(s[1..]);
    }
  }

  lemma MarkedIsValid(a: seq<byte>, mark: seq<byte>)
    requires ValidUtf8(a)
    requires forall i | 0 <= i < |mark| :: mark[i] < 0x80
    ensures ValidUtf8(a + mark)
  {
    AsciiIsValid(mark);
    ConcatValid(a, mark);
  }

  /** No character has more than three continuation bytes. */
  lemma {:induction false} BoundaryIsNear(s: seq<byte>, i: nat) returns (b: nat)
    requires ValidUtf8(s) && i <= |s|
    ensures b <= i < b + 4 && IsBoundary(s, b)
    decreases |s|
  {
    var n := CharLength(s);
    if i < 4 {
      b := 0;
    } else if i == |s| {
      b := i;
    } else {
      b := BoundaryIsNear(s[n..], i - n);
      if b == 0 {
        b := n;
        if n < |s| {
          assert CharLength(s[n..]) > 0;
        }
      } else {
        b := b + n;
      }
    }
  }

  /** The capped line: unchanged when it fits; otherwise the longest valid
      prefix within the limit, at most three bytes below it, plus the mark. */
  method CapLogLine(line: seq<byte>) returns (r: seq<byte>, cut: nat)
    requires ValidUtf8(line)
    ensures ValidUtf8(r)
    ensures |line| <= 65536 ==> r == line
    ensures |line| > 65536 ==>
              && 65533 <= cut <= 65536
              // " ...[truncated]"
              && r == line[..cut] + [32, 46, 46, 46, 91, 116, 114, 117, 110, 99, 97, 116, 101, 100, 93]
              && ValidUtf8(line[..cut])
              && forall k | cut < k <= 65536 :: !ValidUtf8(line[..k])
  {
    cut := MAX_LOG_LINE_BYTES;
    if |line| <= MAX_LOG_LINE_BYTES {
      return line, cut;
    }
    ghost var near := BoundaryIsNear(line, MAX_LOG_LINE_BYTES);
    while cut > 0 && !IsBoundary(line, cut)
      invariant near <= cut <= MAX_LOG_LINE_BYTES
      invariant forall k | cut < k <= MAX_LOG_LINE_BYTES :: !IsBoundary(line, k)
    {
      cut := cut - 1;
    }
    forall k: nat | cut <= k <= MAX_LOG_LINE_BYTES
      ensures IsBoundary(line, k) <==> ValidUtf8(line[..k])
    {
      BoundaryIffValidPrefix(line, k);
    }
    r := line[..cut] + MARK;
    MarkedIsValid(line[..cut], MARK);
  }
}
