/**
 The completion marker an agent leaves in a job's log directory
 (crates/agent/src/job_executor.rs, write_completed_marker and
 read_completed_marker): four lines holding the retry count, the status
 number, the exit code and the message. A re-dispatched run replays the
 recorded outcome instead of running a second time, so a reader must never
 misread what a writer stored.
 */
module CompletionMarker {
  import opened Text

  datatype Outcome = Succeeded | Failed | Cancelled

  datatype MarkerRead =
    | Missing
    | Valid(status: Outcome, exitCode: int, message: string)
    | Corrupt

  type RetryCount = n: nat | n <= U32_MAX
  type ExitCode = n: int | I32_MIN <= n <= I32_MAX

  /** The protocol buffer numbers of the three terminal states. */
  function StatusNumber(o: Outcome): nat {
    match o
    case Succeeded => 5
    case Failed => 6
    case Cancelled => 7
  }

  /** The file content for one run. */
  function Encode(retry: RetryCount, o: Outcome, code: ExitCode, message: string): string {
    Decimal(retry) + "\n" + (Decimal(StatusNumber(o)) + "\n" + (SignedDecimal(code) + "\n" + message))
  }

  /** Parsing once the content has been split into lines. */
  function Interpret(lines: seq<string>, retry: RetryCount): MarkerRead {
    if |lines| < 1 then Corrupt else
    match ParseUnsigned(Trim(lines[0]), U32_MAX)
    case None => Corrupt
    case Some(stored) =>
      if stored != retry then Missing else
      if |lines| < 2 then Corrupt else
      match ParseI32(Trim(lines[1]))
      case None => Corrupt
      case Some(status) =>
        if |lines| < 3 then Corrupt else
        match ParseI32(Trim(lines[2]))
        case None => Corrupt
        case Some(code) =>
          var message := Join(lines[3..]);
          if status == 5 then Valid(Succeeded, code, message)
          else if status == 6 then Valid(Failed, code, message)
          else if status == 7 then Valid(Cancelled, code, message)
          else Corrupt
  }

  /** Reading the marker for the run `retry`; a file that is absent or cannot
      be read counts as no marker. */
  function Read(file: Option<string>, retry: RetryCount): MarkerRead {
    match file
    case None => Missing
    case Some(content) => Interpret(Lines(content), retry)
  }

  /** A line that reads back as itself. */
  predicate Plain(s: string) {
    '\n' !in s && StripCr(s) == s
  }

  lemma DecimalIsPlain(n: nat)
    ensures Plain(Decimal(n))
  {
    var s := Decimal(n);
    assert IsDigit(s[|s| - 1]);
  }

  lemma ThreeLines(a: string, b: string, c: string, rest: string)
    requires Plain(a) && Plain(b) && Plain(c)
    ensures Lines(a + "\n" + (b + "\n" + (c + "\n" + rest))) == [a, b, c] + Lines(rest)
  {
    LinesOfTerminated(c, rest);
    LinesOfTerminated(b, c + "\n" + rest);
    LinesOfTerminated(a, b + "\n" + (c + "\n" + rest));
  }

  lemma EncodedLines(retry: RetryCount, o: Outcome, code: ExitCode, message: string)
    ensures Lines(Encode(retry, o, code, message))
         == [Decimal(retry), Decimal(StatusNumber(o)), SignedDecimal(code)] + Lines(message)
  {
    DecimalIsPlain(retry);
    DecimalIsPlain(StatusNumber(o));
    ThreeLines(Decimal(retry), Decimal(StatusNumber(o)), SignedDecimal(code), message);
  }

  lemma ParseStatus(o: Outcome)
    ensures ParseI32(Trim(Decimal(StatusNumber(o)))) == Some(StatusNumber(o))
  {
    ParseSignedDecimal(StatusNumber(o));
  }

  /** Three lines that parse are a marker, or belong to another run. */
  lemma InterpretParsed(lines: seq<string>, stored: nat, number: int, code: int, asked: RetryCount)
    requires |lines| >= 3 && ParseUnsigned(Trim(lines[0]), U32_MAX) == Some(stored)
    requires ParseI32(Trim(lines[1])) == Some(number) && ParseI32(Trim(lines[2])) == Some(code)
    ensures Interpret(lines, asked)
         == if stored != asked then Missing
            else if number == 5 then Valid(Succeeded, code, Join(lines[3..]))
            else if number == 6 then Valid(Failed, code, Join(lines[3..]))
            else if number == 7 then Valid(Cancelled, code, Join(lines[3..]))
            else Corrupt
  {
  }

  lemma InterpretEncoded(retry: RetryCount, o: Outcome, code: ExitCode, rest: seq<string>, asked: RetryCount)
    ensures Interpret([Decimal(retry), Decimal(StatusNumber(o)), SignedDecimal(code)] + rest, asked)
         == if asked == retry then Valid(o, code, Join(rest)) else Missing
  {
    var a, b, c := Decimal(retry), Decimal(StatusNumber(o)), SignedDecimal(code);
    ParseDecimal(retry, U32_MAX);
    ParseStatus(o);
    ParseSignedDecimal(code);
    InterpretHead(a, b, c, rest, retry, StatusNumber(o), code, asked);
  }

  lemma InterpretHead(a: string, b: string, c: string, rest: seq<string>, stored: nat, number: int, code: int, asked: RetryCount)
    requires ParseUnsigned(Trim(a), U32_MAX) == Some(stored)
    requires ParseI32(Trim(b)) == Some(number) && ParseI32(Trim(c)) == Some(code)
    ensures Interpret([a, b, c] + rest, asked)
         == if stored != asked then Missing
            else if number == 5 then Valid(Succeeded, code, Join(rest))
            else if number == 6 then Valid(Failed, code, Join(rest))
            else if number == 7 then Valid(Cancelled, code, Join(rest))
            else Corrupt
  {
    var lines := [a, b, c] + rest;
    assert lines[3..] == rest;
    InterpretParsed(lines, stored, number, code, asked);
  }

  /** Whatever the message, what was written reads back as the same status and
      exit code under its own retry count, and as no marker under any other:
      never as corrupt. The message survives exactly when it holds no CR-LF
      pair and does not end in LF. */
  lemma RoundTrip(retry: RetryCount, o: Outcome, code: ExitCode, message: string, asked: RetryCount)
    ensures asked != retry ==> Read(Some(Encode(retry, o, code, message)), asked) == Missing
    ensures asked == retry ==>
              var r := Read(Some(Encode(retry, o, code, message)), asked);
              r == Valid(o, code, Join(Lines(message)))
              && (r.message == message <==> LineClean(message))
  {
    EncodedLines(retry, o, code, message);
    InterpretEncoded(retry, o, code, Lines(message), asked);
    JoinLines(message);
  }

  /** A concrete message that does not survive: the trailing LF is lost. */
  lemma TrailingLfIsLost(retry: RetryCount, o: Outcome, code: ExitCode)
    ensures Read(Some(Encode(retry, o, code, "x\n")), retry) == Valid(o, code, "x")
  {
    RoundTrip(retry, o, code, "x\n", retry);
    LinesOfTerminated("x", "");
    assert "x" + "\n" + "" == "x\n";
  }

  /** A text without LF is at most one line. */
  lemma AtMostOneLine(s: string)
    requires '\n' !in s
    ensures |Lines(s)| <= 1
  {
    assert FirstLf(s) == |s|;
  }

  lemma PrefixLacksLf(p: string, s: string)
    requires p <= s && '\n' !in s
    ensures '\n' !in p
  {
    forall i | 0 <= i < |p| ensures p[i] != '\n' {
      assert s[i] == p[i];
    }
  }

  /** A prefix of `a LF b` is a prefix of `a`, or all of `a LF` and a prefix of `b`. */
  lemma PrefixSplit(p: string, a: string, b: string)
    requires p <= a + "\n" + b
    ensures p <= a || (|p| > |a| && p == a + "\n" + p[|a| + 1..] && p[|a| + 1..] <= b)
  {
    var s := a + "\n" + b;
    assert p == s[..|p|];
    if |p| > |a| {
      assert s[..|p|][|a| + 1..] == b[..|p| - |a| - 1];
    }
  }

  /** The second line alone decides the status of a valid marker. */
  lemma SecondLineIsStatus(lines: seq<string>, o: Outcome, asked: RetryCount)
    requires |lines| >= 2 && lines[1] == Decimal(StatusNumber(o))
    ensures Interpret(lines, asked).Valid? ==> Interpret(lines, asked).status == o
  {
    ParseStatus(o);
  }

  /** Fewer than three lines are never a valid marker. */
  lemma ShortIsNotValid(lines: seq<string>, asked: RetryCount)
    requires |lines| < 3
    ensures !Interpret(lines, asked).Valid?
  {
  }

  /** A torn write, which leaves only a prefix of the content, can never turn
      one outcome into another: if it reads as valid, it reads as the status
      that was being written. */
  lemma TornWriteKeepsStatus(p: string, retry: RetryCount, o: Outcome, code: ExitCode,
                             message: string, asked: RetryCount)
    requires p <= Encode(retry, o, code, message)
    ensures Read(Some(p), asked).Valid? ==> Read(Some(p), asked).status == o
  {
    var a, b, rest := Decimal(retry), Decimal(StatusNumber(o)), SignedDecimal(code) + "\n" + message;
    DecimalIsPlain(retry);
    DecimalIsPlain(StatusNumber(o));
    PrefixSplit(p, a, b + "\n" + rest);
    if p <= a {
      PrefixLacksLf(p, a);
      AtMostOneLine(p);
      ShortIsNotValid(Lines(p), asked);
    } else {
      var q := p[|a| + 1..];
      LinesOfTerminated(a, q);
      PrefixSplit(q, b, rest);
      if q <= b {
        PrefixLacksLf(q, b);
        AtMostOneLine(q);
        ShortIsNotValid(Lines(p), asked);
      } else {
        LinesOfTerminated(b, q[|b| + 1..]);
        assert Lines(p) == [a] + ([b] + Lines(q[|b| + 1..]));
        SecondLineIsStatus(Lines(p), o, asked);
      }
    }
  }

  // ----- damaged content -----

  /** The numeral in a line, if it is one of the unsigned 32-bit numbers. */
  function RetryIn(line: string): Option<nat> {
    ParseUnsigned(Trim(line), 0xFFFF_FFFF)
  }

  /** The outcome with that number, if there is one. */
  function OutcomeNumbered(n: int): Option<Outcome> {
    if n == 5 then Some(Succeeded) else if n == 6 then Some(Failed) else if n == 7 then Some(Cancelled) else None
  }

  lemma InterpretIff(lines: seq<string>, asked: RetryCount)
    ensures var r := Interpret(lines, asked);
            var stored := if |lines| >= 1 then RetryIn(lines[0]) else None;
            && (r.Missing? <==> stored.Some? && stored.value != asked)
            && (r.Valid? <==>
                  && stored == Some(asked) && |lines| >= 3
                  && ParseI32(Trim(lines[1])).Some? && OutcomeNumbered(ParseI32(Trim(lines[1])).value).Some?
                  && ParseI32(Trim(lines[2])).Some?)
            && (r.Valid? ==>
                  && Some(r.status) == OutcomeNumbered(ParseI32(Trim(lines[1])).value)
                  && Some(r.exitCode) == ParseI32(Trim(lines[2]))
                  && r.message == Join(lines[3..]))
  {
  }

  /** Whatever a file holds: it lets a run execute only if its first line is a
      retry count other than the run's; it replays an outcome only if its first
      three lines are the run's own retry count, the number of an outcome and an
      exit code, and then exactly those; and in every other case it is corrupt. */
  lemma ReadIff(content: string, asked: RetryCount)
    ensures var lines := Lines(content);
            var r := Read(Some(content), asked);
            var stored := if |lines| >= 1 then RetryIn(lines[0]) else None;
            && (r.Missing? <==> stored.Some? && stored.value != asked)
            && (r.Valid? <==>
                  && stored == Some(asked) && |lines| >= 3
                  && ParseI32(Trim(lines[1])).Some? && OutcomeNumbered(ParseI32(Trim(lines[1])).value).Some?
                  && ParseI32(Trim(lines[2])).Some?)
            && (r.Valid? ==>
                  && Some(r.status) == OutcomeNumbered(ParseI32(Trim(lines[1])).value)
                  && Some(r.exitCode) == ParseI32(Trim(lines[2]))
                  && r.message == Join(lines[3..]))
  {
    InterpretIff(Lines(content), asked);
  }

  /** An empty file, as a crash between opening and writing leaves it, stops the
      run. */
  lemma EmptyIsCorrupt(asked: RetryCount)
    ensures Read(Some(""), asked) == Corrupt
  {
    ReadIff("", asked);
  }

  /** What parses as an unsigned number: digits, after an optional plus sign, that
      denote a number no larger than the bound. */
  lemma ParseUnsignedIff(s: string, max: nat, n: nat)
    ensures ParseUnsigned(s, max) == Some(n)
       <==> n <= max && exists digits :: digits != "" && AllDigits(digits) && NatOf(digits) == n
                                        && (s == digits || s == "+" + digits)
  {
    if digits :| digits != "" && AllDigits(digits) && NatOf(digits) == n && (s == digits || s == "+" + digits) {
      assert IsDigit(digits[0]);
      assert s == "+" + digits ==> s[1..] == digits;
    }
    if ParseUnsigned(s, max) == Some(n) {
      var digits := if s[0] == '+' then s[1..] else s;
      assert s == digits || s == "+" + digits;
    }
  }

  /** The string is a sign, if any, and digits that denote the number. */
  predicate Denotes(s: string, digits: string, n: int) {
    && digits != "" && AllDigits(digits)
    && ((s == "-" + digits && n == 0 - NatOf(digits)) || ((s == digits || s == "+" + digits) && n == NatOf(digits)))
  }

  /** What parses as a signed 32-bit number: such a string, as far as 32 bits
      reach. */
  lemma ParseI32Iff(s: string, n: int)
    ensures ParseI32(s) == Some(n)
       <==> -0x8000_0000 <= n <= 0x7FFF_FFFF && exists digits :: Denotes(s, digits, n)
  {
    if exists digits :: Denotes(s, digits, n) {
      var digits :| Denotes(s, digits, n);
      assert IsDigit(digits[0]);
      assert s != digits ==> s[1..] == digits;
    }
    if ParseI32(s) == Some(n) {
      var digits := if s[0] == '-' || s[0] == '+' then s[1..] else s;
      assert s == digits || s == "+" + digits || s == "-" + digits;
      assert Denotes(s, digits, n);
    }
  }
}
