/** The stand-alone generator of one valid Aadhaar number, scripts/generate_valid_sample.py. */
module GenerateValidSample {
  import opened Strings
  import opened Validators
  import GenerateSamples

  /** The tables local to `create_valid_aadhaar`. */
  const CalcD: seq<Row> := [
    [0, 1, 2, 3, 4, 5, 6, 7, 8, 9], [1, 2, 3, 4, 0, 6, 7, 8, 9, 5],
    [2, 3, 4, 0, 1, 7, 8, 9, 5, 6], [3, 4, 0, 1, 2, 8, 9, 5, 6, 7],
    [4, 0, 1, 2, 3, 9, 5, 6, 7, 8], [5, 9, 8, 7, 6, 0, 4, 3, 2, 1],
    [6, 5, 9, 8, 7, 1, 0, 4, 3, 2], [7, 6, 5, 9, 8, 2, 1, 0, 4, 3],
    [8, 7, 6, 5, 9, 3, 2, 1, 0, 4], [9, 8, 7, 6, 5, 4, 3, 2, 1, 0]
  ]
  const CalcP: seq<Row> := [
    [0, 1, 2, 3, 4, 5, 6, 7, 8, 9], [1, 5, 7, 6, 2, 8, 3, 0, 9, 4],
    [5, 8, 0, 3, 7, 9, 6, 1, 4, 2], [8, 9, 1, 6, 0, 4, 3, 5, 2, 7],
    [9, 4, 5, 3, 1, 2, 6, 8, 7, 0], [4, 2, 8, 6, 5, 7, 3, 9, 0, 1],
    [2, 7, 9, 3, 8, 0, 6, 4, 1, 5], [7, 0, 4, 6, 9, 1, 3, 2, 5, 8]
  ]
  const CalcInv: Row := [0, 4, 3, 2, 1, 5, 6, 7, 8, 9]

  lemma TablesAgree()
    ensures CalcD == D && CalcP == P && CalcInv == Inv
  {
  }

  /** `calc`: the same check digit as the sample generator computes. */
  method Calc(num: string) returns (check: Digit)
    requires AllDigits(num)
    ensures check == GenerateSamples.Checksum(num)
  {
    TablesAgree();
    var myArray := Reverse(DigitsOf(num));
    var c: Digit := 0;
    var i := 0;
    while i < |myArray|
      invariant 0 <= i <= |myArray|
      invariant Run(c, myArray[i..], i + 1) == Run(0, myArray, 1)
    {
      c := CalcD[c][CalcP[(i + 1) % 8][myArray[i]]];
      i := i + 1;
    }
    check := CalcInv[c];
  }

  const Prefix := "99998888777"

  /** The number printed on the card: the prefix, its check digit, grouped in fours. */
  method CreateValidAadhaar() returns (formatted: string)
    ensures ValidateAadhaar(formatted)
    ensures formatted == "9999 8888 7779"
  {
    var checksum := Calc(Prefix);
    var validNum := Prefix + [DigitChar(checksum)];
    formatted := GenerateSamples.FormatGroups(validNum);
    GenerateSamples.ChecksumCompletes(Prefix);
    GenerateSamples.FormatGroupsValid(validNum);
    PrefixChecksum();
    NumberFormatted();
  }

  lemma PrefixReversed()
    ensures Reverse(DigitsOf(Prefix)) == [7, 7, 7, 8, 8, 8, 8, 9, 9, 9, 9]
  {
  }

  /** The recurrence over the reversed prefix, four digits at a time. */
  lemma PrefixRun(r: seq<Digit>)
    requires r == [7, 7, 7, 8, 8, 8, 8, 9, 9, 9, 9]
    ensures Run(0, r, 1) == 9
  {
    assert r[0..] == r;
    PrefixRunA(r);
    PrefixRunB(r);
    PrefixRunC(r);
  }

  lemma PrefixRunA(r: seq<Digit>)
    requires r == [7, 7, 7, 8, 8, 8, 8, 9, 9, 9, 9]
    ensures Run(0, r[0..], 1) == Run(4, r[4..], 5)
  {
    RunStep(0, r[0..], 1, 7, 0);
    var t1 := r[0..][1..];
    RunStep(0, t1, 2, 7, 1);
    var t2 := t1[1..];
    RunStep(1, t2, 3, 7, 6);
    var t3 := t2[1..];
    RunStep(6, t3, 4, 8, 4);
    var t4 := t3[1..];
    assert t4 == r[4..];
  }

  lemma PrefixRunB(r: seq<Digit>)
    requires r == [7, 7, 7, 8, 8, 8, 8, 9, 9, 9, 9]
    ensures Run(4, r[4..], 5) == Run(1, r[8..], 9)
  {
    RunStep(4, r[4..], 5, 8, 4);
    var t5 := r[4..][1..];
    RunStep(4, t5, 6, 8, 0);
    var t6 := t5[1..];
    RunStep(0, t6, 7, 8, 5);
    var t7 := t6[1..];
    RunStep(5, t7, 8, 9, 1);
    var t8 := t7[1..];
    assert t8 == r[8..];
  }

  lemma PrefixRunC(r: seq<Digit>)
    requires r == [7, 7, 7, 8, 8, 8, 8, 9, 9, 9, 9]
    ensures Run(1, r[8..], 9) == 9
  {
    RunStep(1, r[8..], 9, 9, 0);
    var t9 := r[8..][1..];
    RunStep(0, t9, 10, 9, 2);
    var t10 := t9[1..];
    RunStep(2, t10, 11, 9, 9);
    var t11 := t10[1..];
    RunEnd(9, t11, 12);
  }

  /** The check digit of "99998888777" is 9. */
  lemma PrefixChecksum()
    ensures GenerateSamples.Checksum(Prefix) == 9
  {
    PrefixReversed();
    PrefixRun(Reverse(DigitsOf(Prefix)));
  }

  lemma NumberFormatted()
    ensures GenerateSamples.FormatGroups(Prefix + [DigitChar(9)]) == "9999 8888 7779"
  {
    var n := Prefix + [DigitChar(9)];
    assert DigitChar(9) == '9';
    assert n == "999988887779";
    assert n[..4] == "9999" && n[4..8] == "8888" && n[8..] == "7779";
    GenerateSamples.FormatTwelve(n);
    assert "9999" + " " + "8888" + " " + "7779" == "9999 8888 7779";
  }

  lemma PlaceholderReversed()
    ensures Reverse(DigitsOf("123456789012")) == [2, 1, 0, 9, 8, 7, 6, 5, 4, 3, 2, 1]
  {
  }

  /** The validator's recurrence over the reversed placeholder digits, four at a time. */
  lemma PlaceholderRun(r: seq<Digit>)
    requires r == [2, 1, 0, 9, 8, 7, 6, 5, 4, 3, 2, 1]
    ensures Run(0, r, 0) == 2
  {
    assert r[0..] == r;
    PlaceholderRunA(r);
    PlaceholderRunB(r);
    PlaceholderRunC(r);
  }

  lemma PlaceholderRunA(r: seq<Digit>)
    requires r == [2, 1, 0, 9, 8, 7, 6, 5, 4, 3, 2, 1]
    ensures Run(0, r[0..], 0) == Run(9, r[4..], 4)
  {
    RunStep(0, r[0..], 0, 2, 2);
    var t1 := r[0..][1..];
    RunStep(2, t1, 1, 1, 7);
    var t2 := t1[1..];
    RunStep(7, t2, 2, 0, 2);
    var t3 := t2[1..];
    RunStep(2, t3, 3, 9, 9);
    var t4 := t3[1..];
    assert t4 == r[4..];
  }

  lemma PlaceholderRunB(r: seq<Digit>)
    requires r == [2, 1, 0, 9, 8, 7, 6, 5, 4, 3, 2, 1]
    ensures Run(9, r[4..], 4) == Run(1, r[8..], 8)
  {
    RunStep(9, r[4..], 4, 8, 2);
    var t5 := r[4..][1..];
    RunStep(2, t5, 5, 7, 6);
    var t6 := t5[1..];
    RunStep(6, t6, 6, 6, 0);
    var t7 := t6[1..];
    RunStep(0, t7, 7, 5, 1);
    var t8 := t7[1..];
    assert t8 == r[8..];
  }

  lemma PlaceholderRunC(r: seq<Digit>)
    requires r == [2, 1, 0, 9, 8, 7, 6, 5, 4, 3, 2, 1]
    ensures Run(1, r[8..], 8) == 2
  {
    RunStep(1, r[8..], 8, 4, 0);
    var t9 := r[8..][1..];
    RunStep(0, t9, 9, 3, 6);
    var t10 := t9[1..];
    RunStep(6, t10, 10, 2, 6);
    var t11 := t10[1..];
    RunStep(6, t11, 11, 1, 2);
    var t12 := t11[1..];
    RunEnd(2, t12, 12);
  }

  lemma PlaceholderFormatted()
    ensures GenerateSamples.FormatGroups("123456789012") == "1234 5678 9012"
  {
    var n := "123456789012";
    assert n[..4] == "1234" && n[4..8] == "5678" && n[8..] == "9012";
    GenerateSamples.FormatTwelve(n);
    assert "1234" + " " + "5678" + " " + "9012" == "1234 5678 9012";
  }

  /** The placeholder "1234 5678 9012" the script rejects in its comments does fail. */
  lemma PlaceholderFails()
    ensures !ValidateAadhaar("1234 5678 9012")
  {
    var n := "123456789012";
    PlaceholderReversed();
    PlaceholderRun(Reverse(DigitsOf(n)));
    assert !VerhoeffAccepts(n);
    PlaceholderFormatted();
    GenerateSamples.FormatGroupsTransparent(n);
    RemoveCharAbsent(n, ' ');
  }
}
