/**
  Interpretation of the Kubernetes minor version string: the pattern
  `^([0-9]+)\+?$` followed by `strconv.Atoi` on the captured digit run.
 */
module MinorVersion {
  import opened Results
  import opened KubeApi

  /** The largest value of Go's `int` on 64-bit platforms. */
  const MaxInt: nat := 0x7FFF_FFFF_FFFF_FFFF

  predicate IsDigit(c: char) {
    '0' <= c <= '9'
  }

  predicate AllDigits(s: string) {
    forall i :: 0 <= i < |s| ==> IsDigit(s[i])
  }

  /**
    What the regular expression means: `s` splits at `k` into a non-empty
    run of digits (the capture group) followed by nothing or by one `+`.
    Go's `$` outside multi-line mode matches only at the end of the text.
   */
  ghost predicate MinorSplit(s: string, k: int) {
    && 1 <= k <= |s|
    && AllDigits(s[..k])
    && (k == |s| || (k == |s| - 1 && s[k] == '+'))
  }

  ghost predicate MatchesMinorPattern(s: string) {
    exists k :: MinorSplit(s, k)
  }

  // ---------------------------------------------------------------------------
  // Character-level recogniser
  // ---------------------------------------------------------------------------

  /** States of a left-to-right scan of the minor version. */
  datatype ScanState = Start | InDigits | AfterPlus | Rejected

  function Next(q: ScanState, c: char): ScanState {
    match q
    case Start => if IsDigit(c) then InDigits else Rejected
    case InDigits => if IsDigit(c) then InDigits else if c == '+' then AfterPlus else Rejected
    case AfterPlus => Rejected
    case Rejected => Rejected
  }

  /** The state reached after reading all of `s`. */
  function Scan(s: string): ScanState {
    if |s| == 0 then Start else Next(Scan(s[..|s| - 1]), s[|s| - 1])
  }

  predicate Accepts(s: string) {
    Scan(s) == InDigits || Scan(s) == AfterPlus
  }

  /** Each scan state describes exactly one shape of the input read so far. */
  lemma {:induction false} ScanStates(s: string)
    ensures Scan(s) == Start <==> |s| == 0
    ensures Scan(s) == InDigits <==> |s| >= 1 && AllDigits(s)
    ensures Scan(s) == AfterPlus <==> |s| >= 2 && AllDigits(s[..|s| - 1]) && s[|s| - 1] == '+'
  {
    if |s| > 0 {
      var p := s[..|s| - 1];
      ScanStates(p);
      assert forall i :: 0 <= i < |p| ==> p[i] == s[i];
      assert AllDigits(s) <==> AllDigits(p) && IsDigit(s[|s| - 1]);
      if |p| >= 1 {
        assert p[..|p| - 1] == s[..|s| - 2];
      }
    }
  }

  /** The length of the digit run of an accepted string: the capture group. */
  function DigitRunLength(s: string): (k: nat)
    requires Accepts(s)
    ensures MinorSplit(s, k)
    ensures forall j :: MinorSplit(s, j) ==> j == k
  {
    ScanStates(s);
    if Scan(s) == InDigits then
      assert s[..|s|] == s;
      |s|
    else
      |s| - 1
  }

  /** The scan accepts exactly the strings the regular expression matches. */
  lemma AcceptsIffPattern(s: string)
    ensures Accepts(s) <==> MatchesMinorPattern(s)
  {
    if Accepts(s) {
      var k := DigitRunLength(s);
      assert MinorSplit(s, k);
    }
    if MatchesMinorPattern(s) {
      var k :| MinorSplit(s, k);
      ScanStates(s);
      if k == |s| {
        assert s[..k] == s;
      } else {
        assert s[..|s| - 1] == s[..k];
      }
    }
  }

  // ---------------------------------------------------------------------------
  // Decimal value of a digit run (strconv.Atoi on unsigned decimal input)
  // ---------------------------------------------------------------------------

  function DigitValue(c: char): nat
    requires IsDigit(c)
  {
    c as int - '0' as int
  }

  /** The decimal number written by `d`, most significant digit first. */
  function DigitsValue(d: string): nat
    requires AllDigits(d)
  {
    if |d| == 0 then 0 else 10 * DigitsValue(d[..|d| - 1]) + DigitValue(d[|d| - 1])
  }

  /**
    `extractK8sMinorVersion`: the value of the digit run when the minor
    version matches the pattern and fits in an `int`, the pattern error
    otherwise, and Atoi's range error for a run too large for an `int`.
   */
  function ExtractK8sMinorVersion(info: VersionInfo): (r: Result<int, Error>)
    ensures !MatchesMinorPattern(info.minor) ==> r == Failure(InvalidMinorVersion(info.minor))
    ensures forall k :: MinorSplit(info.minor, k) ==>
              r == if DigitsValue(info.minor[..k]) <= MaxInt
                   then Success(DigitsValue(info.minor[..k]))
                   else Failure(NumRangeError(info.minor[..k]))
    ensures r.Success? ==> 0 <= r.value <= MaxInt
  {
    var s := info.minor;
    AcceptsIffPattern(s);
    if !Accepts(s) then
      Failure(InvalidMinorVersion(s))
    else
      var digits := s[..DigitRunLength(s)];
      if DigitsValue(digits) <= MaxInt then Success(DigitsValue(digits)) else Failure(NumRangeError(digits))
  }

  // ---------------------------------------------------------------------------
  // Decimal rendering, the inverse of DigitsValue
  // ---------------------------------------------------------------------------

  function DigitChar(n: nat): (c: char)
    requires n < 10
    ensures IsDigit(c) && DigitValue(c) == n
  {
    ('0' as int + n) as char
  }

  /** The canonical decimal spelling of `n` (no leading zeros). */
  function Itoa(n: nat): (s: string)
    ensures |s| >= 1 && AllDigits(s)
  {
    if n < 10 then [DigitChar(n)] else Itoa(n / 10) + [DigitChar(n % 10)]
  }

  lemma {:induction false} ItoaRoundTrip(n: nat)
    ensures DigitsValue(Itoa(n)) == n
  {
    var s := Itoa(n);
    if n >= 10 {
      ItoaRoundTrip(n / 10);
      assert s[..|s| - 1] == Itoa(n / 10);
    }
  }

  /** A matching minor version whose digit run fits in an `int` reads as that run's value. */
  lemma ExtractMatched(info: VersionInfo, k: int)
    requires MinorSplit(info.minor, k) && DigitsValue(info.minor[..k]) <= MaxInt
    ensures ExtractK8sMinorVersion(info) == Success(DigitsValue(info.minor[..k]))
  {
  }

  /** A version number the server writes, with or without the `+`, reads back as itself. */
  lemma MinorVersionRoundTrip(major: string, n: nat)
    requires n <= MaxInt
    ensures ExtractK8sMinorVersion(VersionInfo(major, Itoa(n))) == Success(n)
    ensures ExtractK8sMinorVersion(VersionInfo(major, Itoa(n) + "+")) == Success(n)
  {
    var s := Itoa(n);
    ItoaRoundTrip(n);
    assert s[..|s|] == s;
    assert MinorSplit(s, |s|);
    ExtractMatched(VersionInfo(major, s), |s|);
    var t := s + "+";
    assert t[..|s|] == s;
    assert MinorSplit(t, |s|);
    ExtractMatched(VersionInfo(major, t), |s|);
  }

  /** Atoi ignores leading zeros: "024" denotes 24. */
  lemma {:induction false} LeadingZeroIgnored(d: string)
    requires AllDigits(d)
    ensures DigitsValue("0" + d) == DigitsValue(d)
  {
    if |d| > 0 {
      var p := d[..|d| - 1];
      LeadingZeroIgnored(p);
      assert ("0" + d)[..|"0" + d| - 1] == "0" + p;
    }
  }

  /** Inputs a cluster may report and what the interpreter makes of them. */
  lemma MinorVersionExamples(major: string)
    ensures ExtractK8sMinorVersion(VersionInfo(major, "23")) == Success(23)
    ensures ExtractK8sMinorVersion(VersionInfo(major, "24")) == Success(24)
    ensures ExtractK8sMinorVersion(VersionInfo(major, "24+")) == Success(24)
    ensures ExtractK8sMinorVersion(VersionInfo(major, "30+")) == Success(30)
    ensures ExtractK8sMinorVersion(VersionInfo(major, "")) == Failure(InvalidMinorVersion(""))
    ensures ExtractK8sMinorVersion(VersionInfo(major, "+")) == Failure(InvalidMinorVersion("+"))
    ensures ExtractK8sMinorVersion(VersionInfo(major, "v24")) == Failure(InvalidMinorVersion("v24"))
    ensures ExtractK8sMinorVersion(VersionInfo(major, "24++")) == Failure(InvalidMinorVersion("24++"))
    ensures ExtractK8sMinorVersion(VersionInfo(major, "2+4")) == Failure(InvalidMinorVersion("2+4"))
  {
    assert "23"[..2] == "23" && "23"[..1] == "2" && "2"[..0] == "";
    assert "24"[..2] == "24" && "24"[..1] == "2";
    assert "30"[..1] == "3" && "3"[..0] == "";
    assert "24+"[..2] == "24" && "30+"[..2] == "30";
    AcceptedExample(major, "23", 2, 23);
    AcceptedExample(major, "24", 2, 24);
    AcceptedExample(major, "24+", 2, 24);
    AcceptedExample(major, "30+", 2, 30);
    RejectedExamples();
  }

  lemma AcceptedExample(major: string, s: string, k: int, n: nat)
    requires 1 <= k <= |s| && AllDigits(s[..k]) && (k == |s| || (k == |s| - 1 && s[k] == '+'))
    requires DigitsValue(s[..k]) == n <= MaxInt
    ensures ExtractK8sMinorVersion(VersionInfo(major, s)) == Success(n)
  {
    ExtractMatched(VersionInfo(major, s), k);
  }

  lemma RejectedExamples()
    ensures !MatchesMinorPattern("")
    ensures !MatchesMinorPattern("+")
    ensures !MatchesMinorPattern("v24")
    ensures !MatchesMinorPattern("24++")
    ensures !MatchesMinorPattern("2+4")
  {
    AcceptsIffPattern("");
    AcceptsIffPattern("+");
    AcceptsIffPattern("v24");
    AcceptsIffPattern("24++");
    AcceptsIffPattern("2+4");
    assert "v24"[..2] == "v2" && "v2"[..1] == "v";
    assert "24++"[..3] == "24+";
    assert "2+4"[..2] == "2+" && "2+"[..1] == "2";
  }
}
