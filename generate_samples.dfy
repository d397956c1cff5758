/** The identifiers printed on the synthetic sample documents of scripts/generate_samples.py,
    and the Verhoeff check-digit generator that makes the Aadhaar number valid. */
module GenerateSamples {
  import opened Strings
  import opened Validators

  /** The script's own copies of the three Verhoeff tables. */
  const VerhoeffD: seq<Row> := [
    [0, 1, 2, 3, 4, 5, 6, 7, 8, 9], [1, 2, 3, 4, 0, 6, 7, 8, 9, 5],
    [2, 3, 4, 0, 1, 7, 8, 9, 5, 6], [3, 4, 0, 1, 2, 8, 9, 5, 6, 7],
    [4, 0, 1, 2, 3, 9, 5, 6, 7, 8], [5, 9, 8, 7, 6, 0, 4, 3, 2, 1],
    [6, 5, 9, 8, 7, 1, 0, 4, 3, 2], [7, 6, 5, 9, 8, 2, 1, 0, 4, 3],
    [8, 7, 6, 5, 9, 3, 2, 1, 0, 4], [9, 8, 7, 6, 5, 4, 3, 2, 1, 0]
  ]
  const VerhoeffP: seq<Row> := [
    [0, 1, 2, 3, 4, 5, 6, 7, 8, 9], [1, 5, 7, 6, 2, 8, 3, 0, 9, 4],
    [5, 8, 0, 3, 7, 9, 6, 1, 4, 2], [8, 9, 1, 6, 0, 4, 3, 5, 2, 7],
    [9, 4, 5, 3, 1, 2, 6, 8, 7, 0], [4, 2, 8, 6, 5, 7, 3, 9, 0, 1],
    [2, 7, 9, 3, 8, 0, 6, 4, 1, 5], [7, 0, 4, 6, 9, 1, 3, 2, 5, 8]
  ]
  const VerhoeffInv: Row := [0, 4, 3, 2, 1, 5, 6, 7, 8, 9]

  /** They are the validator's tables. */
  lemma TablesAgree()
    ensures VerhoeffD == D && VerhoeffP == P && VerhoeffInv == Inv
  {
  }

  /** The check digit: the inverse of the state reached when every digit is shifted one
      position to make room for the check digit in front. */
  function Checksum(numStr: string): Digit
    requires AllDigits(numStr)
  {
    Inv[Run(0, Reverse(DigitsOf(numStr)), 1)]
  }

  /** `verhoeff_checksum`; `int(digit)` raises on anything but a digit. */
  method VerhoeffChecksum(numStr: string) returns (check: Digit)
    requires AllDigits(numStr)
    ensures check == Checksum(numStr)
  {
    TablesAgree();
    var digits := Reverse(DigitsOf(numStr));
    var c: Digit := 0;
    var i := 0;
    while i < |digits|
      invariant 0 <= i <= |digits|
      invariant Run(c, digits[i..], i + 1) == Run(0, digits, 1)
    {
      c := VerhoeffD[c][VerhoeffP[(i + 1) % 8][digits[i]]];
      i := i + 1;
    }
    check := VerhoeffInv[c];
  }

  /** Appending the check digit yields a number the validator accepts... */
  lemma {:induction false} ChecksumCompletes(numStr: string)
    requires AllDigits(numStr)
    ensures VerhoeffAccepts(numStr + [DigitChar(Checksum(numStr))])
  {
    var c := Checksum(numStr);
    var full := numStr + [DigitChar(c)];
    var r := Reverse(DigitsOf(numStr));
    assert Reverse(DigitsOf(full)) == [c] + r;
    assert ([c] + r)[1..] == r;
    assert Step(0, c, 0) == c by {
      RowIsDihedral(0);
    }
    RunFrom(c, r, 1);
    InverseTable(Run(0, r, 1));
  }

  /** ...and it is the only digit that does. */
  lemma ChecksumUnique(numStr: string, d: Digit)
    requires AllDigits(numStr) && d != Checksum(numStr)
    ensures !VerhoeffAccepts(numStr + [DigitChar(d)])
  {
    var good := numStr + [DigitChar(Checksum(numStr))];
    ChecksumCompletes(numStr);
    assert good[|numStr| := DigitChar(d)] == numStr + [DigitChar(d)];
    SubstitutionDetected(good, |numStr|, DigitChar(d));
  }

  /** `f"{n[:4]} {n[4:8]} {n[8:]}"` */
  function FormatGroups(n: string): string {
    Slice(n, 0, 4) + " " + Slice(n, 4, 8) + " " + Slice(n, 8, |n|)
  }

  /** A twelve-character number in three groups of four. */
  lemma FormatTwelve(n: string)
    requires |n| == 12
    ensures FormatGroups(n) == n[..4] + " " + n[4..8] + " " + n[8..]
  {
  }

  /** Grouping a twelve-character number in fours does not change its validity. */
  lemma FormatGroupsTransparent(n: string)
    requires |n| == 12
    ensures ValidateAadhaar(FormatGroups(n)) == ValidateAadhaar(n)
  {
    var a, b, c := n[..4], n[4..8], n[8..];
    assert FormatGroups(n) == (a + " " + b) + " " + c;
    AadhaarIgnoresSpace(a + " " + b, c);
    assert a + " " + b + c == a + " " + (b + c);
    AadhaarIgnoresSpace(a, b + c);
    assert a + (b + c) == n;
  }

  /** Grouping a twelve-digit number in fours keeps it a valid Aadhaar number. */
  lemma FormatGroupsValid(n: string)
    requires |n| == 12 && VerhoeffAccepts(n)
    ensures ValidateAadhaar(FormatGroups(n))
  {
    FormatGroupsTransparent(n);
    RemoveCharAbsent(n, ' ');
  }

  /** The Aadhaar number on the sample card: a prefix, its check digit, grouped in fours. */
  method AadhaarNumber(prefix: string) returns (formattedNum: string)
    requires AllDigits(prefix)
    ensures formattedNum == FormatGroups(prefix + [DigitChar(Checksum(prefix))])
    ensures |prefix| == 11 ==> ValidateAadhaar(formattedNum)
  {
    var check := VerhoeffChecksum(prefix);
    var aadhaarNum := prefix + [DigitChar(check)];
    formattedNum := FormatGroups(aadhaarNum);
    ChecksumCompletes(prefix);
    if |prefix| == 11 {
      FormatGroupsValid(aadhaarNum);
    }
  }

  const AadhaarPrefix := "49812365701"
  const PanNumber := "ABCPK1234Z"
  const EpicNumber := "ABC1234567"
  const DlNumber := "DL-0420110012345"
  const PassportNo := "M1234567"

  /** The sample Aadhaar number passes its validator. */
  lemma SampleAadhaarValid()
    ensures AllDigits(AadhaarPrefix) && |AadhaarPrefix| == 11
    ensures ValidateAadhaar(FormatGroups(AadhaarPrefix + [DigitChar(Checksum(AadhaarPrefix))]))
  {
    ChecksumCompletes(AadhaarPrefix);
    FormatGroupsValid(AadhaarPrefix + [DigitChar(Checksum(AadhaarPrefix))]);
  }

  lemma SamplePrefixReversed()
    ensures Reverse(DigitsOf(AadhaarPrefix)) == [1, 0, 7, 5, 6, 3, 2, 1, 8, 9, 4]
  {
  }

  /** The recurrence over the reversed sample prefix, four digits at a time. */
  lemma SamplePrefixRun(r: seq<Digit>)
    requires r == [1, 0, 7, 5, 6, 3, 2, 1, 8, 9, 4]
    ensures Run(0, r, 1) == 0
  {
    assert r[0..] == r;
    SamplePrefixRunA(r);
    SamplePrefixRunB(r);
    SamplePrefixRunC(r);
  }

  lemma SamplePrefixRunA(r: seq<Digit>)
    requires r == [1, 0, 7, 5, 6, 3, 2, 1, 8, 9, 4]
    ensures Run(0, r[0..], 1) == Run(8, r[4..], 5)
  {
    RunStep(0, r[0..], 1, 1, 5);
    var t1 := r[0..][1..];
    RunStep(5, t1, 2, 0, 0);
    var t2 := t1[1..];
    RunStep(0, t2, 3, 7, 5);
    var t3 := t2[1..];
    RunStep(5, t3, 4, 5, 8);
    var t4 := t3[1..];
    assert t4 == r[4..];
  }

  lemma SamplePrefixRunB(r: seq<Digit>)
    requires r == [1, 0, 7, 5, 6, 3, 2, 1, 8, 9, 4]
    ensures Run(8, r[4..], 5) == Run(7, r[8..], 9)
  {
    RunStep(8, r[4..], 5, 6, 5);
    var t5 := r[4..][1..];
    RunStep(5, t5, 6, 3, 7);
    var t6 := t5[1..];
    RunStep(7, t6, 7, 2, 8);
    var t7 := t6[1..];
    RunStep(8, t7, 8, 1, 7);
    var t8 := t7[1..];
    assert t8 == r[8..];
  }

  lemma SamplePrefixRunC(r: seq<Digit>)
    requires r == [1, 0, 7, 5, 6, 3, 2, 1, 8, 9, 4]
    ensures Run(7, r[8..], 9) == 0
  {
    RunStep(7, r[8..], 9, 8, 3);
    var t9 := r[8..][1..];
    RunStep(3, t9, 10, 9, 0);
    var t10 := t9[1..];
    RunStep(0, t10, 11, 4, 0);
    var t11 := t10[1..];
    RunEnd(0, t11, 12);
  }

  lemma SampleNumberFormatted()
    ensures FormatGroups(AadhaarPrefix + [DigitChar(0)]) == "4981 2365 7010"
  {
    var n := AadhaarPrefix + [DigitChar(0)];
    assert DigitChar(0) == '0';
    assert n == "498123657010";
    assert n[..4] == "4981" && n[4..8] == "2365" && n[8..] == "7010";
    FormatTwelve(n);
    assert "4981" + " " + "2365" + " " + "7010" == "4981 2365 7010";
  }

  /** The check digit of the sample prefix is 0, so the card shows "4981 2365 7010". */
  lemma SampleAadhaarNumber()
    ensures Checksum(AadhaarPrefix) == 0
    ensures FormatGroups(AadhaarPrefix + [DigitChar(Checksum(AadhaarPrefix))]) == "4981 2365 7010"
  {
    SamplePrefixReversed();
    SamplePrefixRun(Reverse(DigitsOf(AadhaarPrefix)));
    SampleNumberFormatted();
  }

  /** The PAN, EPIC and passport numbers on the sample cards pass their validators. */
  lemma SampleIdentifiersValid()
    ensures ValidatePan(PanNumber)
    ensures ValidateVoterId(EpicNumber)
    ensures ValidatePassport(PassportNo)
  {
    assert Upper(EpicNumber) == EpicNumber;
    assert Upper(PassportNo) == PassportNo;
  }

  /** A licence number with one hyphen and no spaces is checked without its hyphen. */
  lemma LicenceWithHyphen(a: string, b: string)
    requires ' ' !in a && ' ' !in b && '-' !in a && '-' !in b
    requires AnchoredDl(Upper(a + b))
    ensures ValidateDrivingLicense(a + ['-'] + b)
  {
    assert ' ' !in a + ['-'] + b;
    RemoveCharAbsent(a + ['-'] + b, ' ');
    RemoveCharOnce(a, b, '-');
  }

  /** The sample licence number, hyphen included, passes its validator. */
  lemma SampleLicenceValid()
    ensures ValidateDrivingLicense(DlNumber)
  {
    var a, b := "DL", "0420110012345";
    assert DlNumber == a + ['-'] + b;
    assert ' ' !in a && ' ' !in b && '-' !in a && '-' !in b;
    SampleLicenceBody(a + b);
    LicenceWithHyphen(a, b);
  }

  lemma SampleLicenceBody(ab: string)
    requires ab == "DL0420110012345"
    ensures AnchoredDl(Upper(ab))
  {
    assert Upper(ab) == ab by {
      assert forall i | 0 <= i < |ab| :: !IsLower(ab[i]);
    }
  }
}
