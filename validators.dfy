/** Identifier validators: the Verhoeff checksum and the per-type format rules of
    src/validation/validators.py. */
module Validators {
  import opened Strings

  type Digit = x: int | 0 <= x < 10
  type Row = r: seq<Digit> | |r| == 10 witness [0, 0, 0, 0, 0, 0, 0, 0, 0, 0]

  /** Multiplication table of the dihedral group of order 10. */
  const D: seq<Row> := [
    [0, 1, 2, 3, 4, 5, 6, 7, 8, 9],
    [1, 2, 3, 4, 0, 6, 7, 8, 9, 5],
    [2, 3, 4, 0, 1, 7, 8, 9, 5, 6],
    [3, 4, 0, 1, 2, 8, 9, 5, 6, 7],
    [4, 0, 1, 2, 3, 9, 5, 6, 7, 8],
    [5, 9, 8, 7, 6, 0, 4, 3, 2, 1],
    [6, 5, 9, 8, 7, 1, 0, 4, 3, 2],
    [7, 6, 5, 9, 8, 2, 1, 0, 4, 3],
    [8, 7, 6, 5, 9, 3, 2, 1, 0, 4],
    [9, 8, 7, 6, 5, 4, 3, 2, 1, 0]
  ]

  /** Position-dependent permutations, used cyclically (row `i % 8`). */
  const P: seq<Row> := [
    [0, 1, 2, 3, 4, 5, 6, 7, 8, 9],
    [1, 5, 7, 6, 2, 8, 3, 0, 9, 4],
    [5, 8, 0, 3, 7, 9, 6, 1, 4, 2],
    [8, 9, 1, 6, 0, 4, 3, 5, 2, 7],
    [9, 4, 5, 3, 1, 2, 6, 8, 7, 0],
    [4, 2, 8, 6, 5, 7, 3, 9, 0, 1],
    [2, 7, 9, 3, 8, 0, 6, 4, 1, 5],
    [7, 0, 4, 6, 9, 1, 3, 2, 5, 8]
  ]

  /** Inverse of each element of the group. */
  const Inv: Row := [0, 4, 3, 2, 1, 5, 6, 7, 8, 9]

  function DigitValue(c: char): Digit
    requires IsDigit(c)
  {
    c as int - '0' as int
  }

  /** `list(map(int, num))` on a string of ASCII digits. */
  function DigitsOf(s: string): (ds: seq<Digit>)
    requires AllDigits(s)
    ensures |ds| == |s|
    ensures forall i :: 0 <= i < |s| ==> ds[i] == DigitValue(s[i])
  {
    seq(|s|, i requires 0 <= i < |s| => DigitValue(s[i]))
  }

  function Reverse<T>(s: seq<T>): (r: seq<T>)
    ensures |r| == |s|
    ensures forall i :: 0 <= i < |s| ==> r[i] == s[|s| - 1 - i]
  {
    seq(|s|, i requires 0 <= i < |s| => s[|s| - 1 - i])
  }

  /** One step of the recurrence: digit `d` at position `i` of the reversed number. */
  function Step(c: Digit, d: Digit, i: nat): Digit {
    D[c][P[i % 8][d]]
  }

  /** The recurrence for a step function: from state `c` over `ds`, whose first digit sits
      at position `i`. */
  function Fold(step: (Digit, Digit, nat) -> Digit, c: Digit, ds: seq<Digit>, i: nat): Digit
    decreases |ds|
  {
    if ds == [] then c else Fold(step, step(c, ds[0], i), ds[1..], i + 1)
  }

  /** The Verhoeff recurrence. */
  function Run(c: Digit, ds: seq<Digit>, i: nat): Digit {
    Fold(Step, c, ds, i)
  }

  /** The recurrence over nothing stays where it is. */
  lemma RunEnd(c: Digit, ds: seq<Digit>, i: nat)
    requires ds == []
    ensures Run(c, ds, i) == c
  {
  }

  /** One step of the recurrence. */
  lemma RunCons(c: Digit, ds: seq<Digit>, i: nat)
    requires ds != []
    ensures Run(c, ds, i) == Run(Step(c, ds[0], i), ds[1..], i + 1)
  {
  }

  /** One step of the recurrence with a known digit and a known outcome. */
  lemma RunStep(c: Digit, ds: seq<Digit>, i: nat, d: Digit, n: Digit)
    requires ds != [] && ds[0] == d && Step(c, d, i) == n
    ensures Run(c, ds, i) == Run(n, ds[1..], i + 1)
  {
    RunCons(c, ds, i);
  }

  /** What `VerhoeffValidator.validate` accepts: a non-empty digit string whose
      reversed digits drive the recurrence from 0 back to 0. */
  predicate VerhoeffAccepts(num: string) {
    |num| > 0 && AllDigits(num) && Run(0, Reverse(DigitsOf(num)), 0) == 0
  }

  /** `VerhoeffValidator.validate`. */
  method VerhoeffValidate(num: string) returns (ok: bool)
    ensures ok == VerhoeffAccepts(num)
    ensures num == [] || !AllDigits(num) ==> !ok
  {
    if |num| == 0 || !AllDigits(num) {
      return false;
    }
    var digits := Reverse(DigitsOf(num));
    var c: Digit := 0;
    var i := 0;
    while i < |digits|
      invariant 0 <= i <= |digits|
      invariant Run(c, digits[i..], i) == Run(0, digits, 0)
    {
      c := D[c][P[i % 8][digits[i]]];
      i := i + 1;
    }
    ok := c == 0;
  }

  // ---------------------------------------------------------------------------
  // The group structure behind the tables.

  function Wrap(x: int): int
    requires -5 < x < 10
  {
    if x < 0 then x + 5 else if x >= 5 then x - 5 else x
  }

  /** Closed form of the dihedral product: 0..4 are rotations, 5..9 reflections. */
  function Dihedral(j: Digit, k: Digit): Digit {
    if j < 5 && k < 5 then Wrap(j + k)
    else if j < 5 then 5 + Wrap(j + k - 5)
    else if k < 5 then 5 + Wrap(j - 5 - k)
    else Wrap(j - k)
  }

  lemma RowIsDihedral(j: Digit)
    ensures forall k: Digit :: D[j][k] == Dihedral(j, k)
  {
    if j == 0 {} else if j == 1 {} else if j == 2 {} else if j == 3 {} else if j == 4 {}
    else if j == 5 {} else if j == 6 {} else if j == 7 {} else if j == 8 {} else {}
  }

  /** Associativity of the closed form, split on whether the first factor is a rotation. */
  lemma DihedralAssociativeRotation(a: Digit, b: Digit, c: Digit)
    requires a < 5
    ensures Dihedral(Dihedral(a, b), c) == Dihedral(a, Dihedral(b, c))
  {
  }

  lemma DihedralAssociativeReflection(a: Digit, b: Digit, c: Digit)
    requires a >= 5
    ensures Dihedral(Dihedral(a, b), c) == Dihedral(a, Dihedral(b, c))
  {
  }

  lemma DihedralAssociative(a: Digit, b: Digit, c: Digit)
    ensures Dihedral(Dihedral(a, b), c) == Dihedral(a, Dihedral(b, c))
  {
    if a < 5 {
      DihedralAssociativeRotation(a, b, c);
    } else {
      DihedralAssociativeReflection(a, b, c);
    }
  }

  /** The D table is associative. */
  lemma Associative(a: Digit, b: Digit, c: Digit)
    ensures D[D[a][b]][c] == D[a][D[b][c]]
  {
    RowIsDihedral(a);
    RowIsDihedral(b);
    RowIsDihedral(D[a][b]);
    DihedralAssociative(a, b, c);
  }

  lemma LeftCancel(a: Digit, b: Digit, c: Digit)
    requires D[a][b] == D[a][c]
    ensures b == c
  {
    RowIsDihedral(a);
  }

  lemma RightCancel(a: Digit, b: Digit, c: Digit)
    requires D[b][a] == D[c][a]
    ensures b == c
  {
    RowIsDihedral(b);
    RowIsDihedral(c);
  }

  /** `Inv` is a two-sided inverse for `D`. */
  lemma InverseTable(c: Digit)
    ensures D[c][Inv[c]] == 0 && D[Inv[c]][c] == 0
  {
    RowIsDihedral(c);
    RowIsDihedral(Inv[c]);
  }

  /** The inverse permutations of the rows of `P`. */
  const PUndo: seq<Row> := [
    [0, 1, 2, 3, 4, 5, 6, 7, 8, 9],
    [7, 0, 4, 6, 9, 1, 3, 2, 5, 8],
    [2, 7, 9, 3, 8, 0, 6, 4, 1, 5],
    [4, 2, 8, 6, 5, 7, 3, 9, 0, 1],
    [9, 4, 5, 3, 1, 2, 6, 8, 7, 0],
    [8, 9, 1, 6, 0, 4, 3, 5, 2, 7],
    [5, 8, 0, 3, 7, 9, 6, 1, 4, 2],
    [1, 5, 7, 6, 2, 8, 3, 0, 9, 4]
  ]

  lemma RowUndone(i: nat, x: Digit)
    requires i < 8
    ensures PUndo[i][P[i][x]] == x
  {
    if i == 0 {} else if i == 1 {} else if i == 2 {} else if i == 3 {}
    else if i == 4 {} else if i == 5 {} else if i == 6 {} else {}
  }

  /** Every row of `P` is a permutation of the digits. */
  lemma PermutationRow(i: nat, x: Digit, y: Digit)
    requires i < 8 && P[i][x] == P[i][y]
    ensures x == y
  {
    RowUndone(i, x);
    RowUndone(i, y);
  }

  /** Starting the recurrence from `x` multiplies its outcome from 0 by `x` on the left. */
  lemma {:induction false} RunFrom(x: Digit, ds: seq<Digit>, i: nat)
    ensures Run(x, ds, i) == D[x][Run(0, ds, i)]
    decreases |ds|
  {
    if ds == [] {
      RowIsDihedral(x);
    } else {
      var q := P[i % 8][ds[0]];
      RunFrom(D[x][q], ds[1..], i + 1);
      RunFrom(D[0][q], ds[1..], i + 1);
      assert D[0][q] == q by { RowIsDihedral(0); }
      Associative(x, q, Run(0, ds[1..], i + 1));
    }
  }

  lemma {:induction false} FoldAppend(step: (Digit, Digit, nat) -> Digit, c: Digit, a: seq<Digit>, b: seq<Digit>, i: nat)
    ensures Fold(step, c, a + b, i) == Fold(step, Fold(step, c, a, i), b, i + |a|)
    decreases |a|
  {
    if a == [] {
      assert a + b == b;
    } else {
      assert (a + b)[0] == a[0] && (a + b)[1..] == a[1..] + b;
      FoldAppend(step, step(c, a[0], i), a[1..], b, i + 1);
    }
  }

  lemma {:induction false} RunAppend(c: Digit, a: seq<Digit>, b: seq<Digit>, i: nat)
    ensures Run(c, a + b, i) == Run(Run(c, a, i), b, i + |a|)
  {
    FoldAppend(Step, c, a, b, i);
  }

  /** Changing one digit of an accepted sequence changes the outcome. */
  lemma {:induction false} RunSubstitution(a: seq<Digit>, d: Digit, d': Digit, b: seq<Digit>)
    requires d != d' && Run(0, a + [d] + b, 0) == 0
    ensures Run(0, a + [d'] + b, 0) != 0
  {
    var j := |a|;
    var s := Run(0, a, 0);
    var x, x' := Step(s, d, j), Step(s, d', j);
    RunAppend(0, a, [d] + b, 0);
    RunAppend(0, a, [d'] + b, 0);
    assert a + [d] + b == a + ([d] + b);
    assert a + [d'] + b == a + ([d'] + b);
    assert ([d] + b)[1..] == b && ([d'] + b)[1..] == b;
    assert Run(s, [d] + b, j) == Run(x, b, j + 1);
    assert Run(s, [d'] + b, j) == Run(x', b, j + 1);
    RunFrom(x, b, j + 1);
    RunFrom(x', b, j + 1);
    if Run(0, a + [d'] + b, 0) == 0 {
      RightCancel(Run(0, b, j + 1), x, x');
      LeftCancel(s, P[j % 8][d], P[j % 8][d']);
      PermutationRow(j % 8, d, d');
      assert false;
    }
  }

  /** A sequence around its `j`-th element, before and after replacing it. */
  lemma Around<T>(s: seq<T>, j: nat, v: T)
    requires j < |s|
    ensures s == s[..j] + [s[j]] + s[j + 1..]
    ensures s[j := v] == s[..j] + [v] + s[j + 1..]
  {
  }

  /** Replacing the `k`-th character replaces the matching reversed digit. */
  lemma DigitsUpdate(num: string, k: nat, ch: char)
    requires AllDigits(num) && k < |num| && IsDigit(ch)
    ensures AllDigits(num[k := ch])
    ensures Reverse(DigitsOf(num[k := ch])) == Reverse(DigitsOf(num))[|num| - 1 - k := DigitValue(ch)]
  {
  }

  /** Verhoeff detects every single-digit substitution. */
  lemma {:induction false} SubstitutionDetected(num: string, k: nat, ch: char)
    requires VerhoeffAccepts(num) && k < |num|
    requires IsDigit(ch) && ch != num[k]
    ensures !VerhoeffAccepts(num[k := ch])
  {
    var rev := Reverse(DigitsOf(num));
    var j := |num| - 1 - k;
    DigitsUpdate(num, k, ch);
    Around(rev, j, DigitValue(ch));
    assert rev[j] == DigitValue(num[k]) != DigitValue(ch);
    RunSubstitution(rev[..j], rev[j], DigitValue(ch), rev[j + 1..]);
  }

  /** Each row of `P` is the first row applied once more to the previous one. */
  lemma PowerRow(j: nat, x: Digit)
    requires j < 8
    ensures P[(j + 1) % 8][x] == P[1][P[j][x]]
  {
    if j == 0 {} else if j == 1 {} else if j == 2 {} else if j == 3 {}
    else if j == 4 {} else if j == 5 {} else if j == 6 {} else {}
  }
  lemma CoreTransposition(u: Digit, v: Digit)
    requires u != v
    ensures D[u][P[1][v]] != D[v][P[1][u]]
  {
    if u == 0 {
      if v == 0 {} else if v == 1 {} else if v == 2 {} else if v == 3 {} else if v == 4 {} else if v == 5 {} else if v == 6 {} else if v == 7 {} else if v == 8 {} else {}
    } else if u == 1 {
      if v == 0 {} else if v == 1 {} else if v == 2 {} else if v == 3 {} else if v == 4 {} else if v == 5 {} else if v == 6 {} else if v == 7 {} else if v == 8 {} else {}
    } else if u == 2 {
      if v == 0 {} else if v == 1 {} else if v == 2 {} else if v == 3 {} else if v == 4 {} else if v == 5 {} else if v == 6 {} else if v == 7 {} else if v == 8 {} else {}
    } else if u == 3 {
      if v == 0 {} else if v == 1 {} else if v == 2 {} else if v == 3 {} else if v == 4 {} else if v == 5 {} else if v == 6 {} else if v == 7 {} else if v == 8 {} else {}
    } else if u == 4 {
      if v == 0 {} else if v == 1 {} else if v == 2 {} else if v == 3 {} else if v == 4 {} else if v == 5 {} else if v == 6 {} else if v == 7 {} else if v == 8 {} else {}
    } else if u == 5 {
      if v == 0 {} else if v == 1 {} else if v == 2 {} else if v == 3 {} else if v == 4 {} else if v == 5 {} else if v == 6 {} else if v == 7 {} else if v == 8 {} else {}
    } else if u == 6 {
      if v == 0 {} else if v == 1 {} else if v == 2 {} else if v == 3 {} else if v == 4 {} else if v == 5 {} else if v == 6 {} else if v == 7 {} else if v == 8 {} else {}
    } else if u == 7 {
      if v == 0 {} else if v == 1 {} else if v == 2 {} else if v == 3 {} else if v == 4 {} else if v == 5 {} else if v == 6 {} else if v == 7 {} else if v == 8 {} else {}
    } else if u == 8 {
      if v == 0 {} else if v == 1 {} else if v == 2 {} else if v == 3 {} else if v == 4 {} else if v == 5 {} else if v == 6 {} else if v == 7 {} else if v == 8 {} else {}
    } else {
      if v == 0 {} else if v == 1 {} else if v == 2 {} else if v == 3 {} else if v == 4 {} else if v == 5 {} else if v == 6 {} else if v == 7 {} else if v == 8 {} else {}
    }
  }
  /** Two adjacent distinct digits, at any position, never combine the same way swapped. */
  lemma TranspositionRow(j: nat, x: Digit, y: Digit)
    requires j < 8 && x != y
    ensures D[P[j][x]][P[(j + 1) % 8][y]] != D[P[j][y]][P[(j + 1) % 8][x]]
  {
    PowerRow(j, x);
    PowerRow(j, y);
    if P[j][x] == P[j][y] { PermutationRow(j, x, y); }
    CoreTransposition(P[j][x], P[j][y]);
  }

  /** The recurrence over a prefix of two digits, then the rest. */
  lemma RunPair(s: Digit, x: Digit, y: Digit, b: seq<Digit>, j: nat)
    ensures Run(s, [x, y] + b, j) == D[D[D[s][P[j % 8][x]]][P[(j + 1) % 8][y]]][Run(0, b, j + 2)]
  {
    assert ([x, y] + b)[1..] == [y] + b && ([y] + b)[1..] == b;
    assert Run(s, [x, y] + b, j) == Run(Step(s, x, j), [y] + b, j + 1);
    assert Run(Step(s, x, j), [y] + b, j + 1) == Run(Step(Step(s, x, j), y, j + 1), b, j + 2);
    RunFrom(D[D[s][P[j % 8][x]]][P[(j + 1) % 8][y]], b, j + 2);
  }

  /** From any state, two adjacent distinct digits and their swap lead to different states,
      whatever follows. */
  lemma ModSuccessor(j: nat)
    ensures (j % 8 + 1) % 8 == (j + 1) % 8
  {
  }

  lemma PairSwapDiffers(s: Digit, x: Digit, y: Digit, j: nat, r: Digit)
    requires x != y
    ensures D[D[D[s][P[j % 8][x]]][P[(j + 1) % 8][y]]][r] != D[D[D[s][P[j % 8][y]]][P[(j + 1) % 8][x]]][r]
  {
    var px, py := P[j % 8][x], P[j % 8][y];
    var qx, qy := P[(j + 1) % 8][x], P[(j + 1) % 8][y];
    var e, e' := D[D[s][px]][qy], D[D[s][py]][qx];
    var f, f' := D[px][qy], D[py][qx];
    assert f != f' by {
      var i := j % 8;
      ModSuccessor(j);
      assert P[(i + 1) % 8] == P[(j + 1) % 8];
      TranspositionRow(i, x, y);
    }
    assert e == D[s][f] by { Associative(s, px, qy); }
    assert e' == D[s][f'] by { Associative(s, py, qx); }
    assert e != e' by {
      if e == e' { LeftCancel(s, f, f'); }
    }
    if D[e][r] == D[e'][r] {
      RightCancel(r, e, e');
    }
  }

  /** The recurrence over `a`, a pair of digits, then `b`, in terms of the table entries. */
  lemma {:induction false} RunAroundPair(a: seq<Digit>, x: Digit, y: Digit, b: seq<Digit>)
    ensures Run(0, a + [x, y] + b, 0)
      == D[D[D[Run(0, a, 0)][P[|a| % 8][x]]][P[(|a| + 1) % 8][y]]][Run(0, b, |a| + 2)]
  {
    assert a + [x, y] + b == a + ([x, y] + b);
    RunAppend(0, a, [x, y] + b, 0);
    RunPair(Run(0, a, 0), x, y, b, |a|);
  }

  /** Swapping two adjacent distinct digits of an accepted sequence changes the outcome. */
  lemma {:induction false} RunTransposition(a: seq<Digit>, x: Digit, y: Digit, b: seq<Digit>)
    requires x != y && Run(0, a + [x, y] + b, 0) == 0
    ensures Run(0, a + [y, x] + b, 0) != 0
  {
    RunAroundPair(a, x, y, b);
    RunAroundPair(a, y, x, b);
    PairSwapDiffers(Run(0, a, 0), x, y, |a|, Run(0, b, |a| + 2));
  }

  /** A sequence around its elements `j` and `j + 1`, before and after swapping them. */
  lemma AroundPair<T>(s: seq<T>, j: nat)
    requires j + 1 < |s|
    ensures s == s[..j] + [s[j], s[j + 1]] + s[j + 2..]
    ensures s[j := s[j + 1]][j + 1 := s[j]] == s[..j] + [s[j + 1], s[j]] + s[j + 2..]
  {
  }

  /** Swapping two adjacent characters swaps the matching reversed digits. */
  lemma DigitsSwap(num: string, k: nat)
    requires AllDigits(num) && k + 1 < |num|
    ensures AllDigits(num[k := num[k + 1]][k + 1 := num[k]])
    ensures var rev, j := Reverse(DigitsOf(num)), |num| - 2 - k;
      Reverse(DigitsOf(num[k := num[k + 1]][k + 1 := num[k]])) == rev[j := rev[j + 1]][j + 1 := rev[j]]
  {
  }

  /** Verhoeff detects every transposition of two adjacent distinct digits. */
  lemma {:induction false} TranspositionDetected(num: string, k: nat)
    requires VerhoeffAccepts(num) && k + 1 < |num| && num[k] != num[k + 1]
    ensures !VerhoeffAccepts(num[k := num[k + 1]][k + 1 := num[k]])
  {
    var rev := Reverse(DigitsOf(num));
    var j := |num| - 2 - k;
    DigitsSwap(num, k);
    AroundPair(rev, j);
    assert rev[j] == DigitValue(num[k + 1]) && rev[j + 1] == DigitValue(num[k]);
    RunTransposition(rev[..j], rev[j], rev[j + 1], rev[j + 2..]);
  }

  // ---------------------------------------------------------------------------
  // Aadhaar

  /** Only digits and spaces. */
  predicate DigitsAndSpaces(s: string) {
    forall i :: 0 <= i < |s| ==> IsDigit(s[i]) || s[i] == ' '
  }

  /** `validate_aadhaar`: drop the spaces, then exactly twelve digits passing Verhoeff. */
  function ValidateAadhaar(aadhaarNum: string): (ok: bool)
    ensures ok <==> DigitsAndSpaces(aadhaarNum) && |RemoveChar(aadhaarNum, ' ')| == 12
                    && VerhoeffAccepts(RemoveChar(aadhaarNum, ' '))
  {
    var clean := RemoveChar(aadhaarNum, ' ');
    assert AllDigits(clean) <==> DigitsAndSpaces(aadhaarNum) by {
      RemoveCharKeeps(aadhaarNum, ' ');
      if AllDigits(clean) {
        forall i | 0 <= i < |aadhaarNum| && aadhaarNum[i] != ' ' ensures IsDigit(aadhaarNum[i]) {
          assert aadhaarNum[i] in clean;
        }
      }
      if DigitsAndSpaces(aadhaarNum) {
        forall j | 0 <= j < |clean| ensures IsDigit(clean[j]) {
          assert clean[j] in aadhaarNum;
        }
      }
    }
    |clean| == 12 && AllDigits(clean) && VerhoeffAccepts(clean)
  }

  /** Spaces are ignored wherever they stand. */
  lemma {:induction false} AadhaarIgnoresSpace(a: string, b: string)
    ensures ValidateAadhaar(a + " " + b) == ValidateAadhaar(a + b)
  {
    SpaceRemoved(a, b);
    AadhaarSeesClean(a + " " + b, a + b);
  }

  lemma {:induction false} SpaceRemoved(a: string, b: string)
    ensures RemoveChar(a + " " + b, ' ') == RemoveChar(a + b, ' ')
  {
    var sp := " ";
    var left := a + sp;
    RemoveCharAppend(left, b, ' ');
    RemoveCharAppend(a, sp, ' ');
    RemoveCharAppend(a, b, ' ');
    assert RemoveChar(sp, ' ') == [] by {
      assert sp[1..] == [];
    }
    assert RemoveChar(left, ' ') == RemoveChar(a, ' ');
  }

  /** The verdict depends on the number only through its space-free form. */
  lemma AadhaarSeesClean(s: string, t: string)
    requires RemoveChar(s, ' ') == RemoveChar(t, ' ')
    ensures ValidateAadhaar(s) == ValidateAadhaar(t)
  {
  }

  /** Any other separator, such as a tab, newline or hyphen, is rejected. */
  lemma AadhaarRejectsOtherSeparators(s: string, k: nat)
    requires k < |s| && !IsDigit(s[k]) && s[k] != ' '
    ensures !ValidateAadhaar(s)
  {
  }

  // ---------------------------------------------------------------------------
  // Fixed-width formats. `re.match(r'^X$', s)`: X must span the whole string, except
  // that `$` also matches before one final newline.

  predicate AnchoredPan(w: string) {
    |w| == 10 && (forall i :: 0 <= i < 5 ==> IsUpper(w[i]))
    && (forall i :: 5 <= i < 9 ==> IsDigit(w[i])) && IsUpper(w[9])
  }

  predicate AnchoredEpic(w: string) {
    |w| == 10 && (forall i :: 0 <= i < 3 ==> IsUpper(w[i])) && (forall i :: 3 <= i < 10 ==> IsDigit(w[i]))
  }

  predicate AnchoredDl(w: string) {
    13 <= |w| <= 17 && IsUpper(w[0]) && IsUpper(w[1])
    && forall i :: 2 <= i < |w| ==> IsUpper(w[i]) || IsDigit(w[i])
  }

  predicate AnchoredPassport(w: string) {
    |w| == 8 && IsUpper(w[0]) && forall i :: 1 <= i < 8 ==> IsDigit(w[i])
  }

  /** The string itself, or the string without one final newline. */
  function Body(s: string): string {
    if |s| > 0 && s[|s| - 1] == '\n' then s[..|s| - 1] else s
  }

  /** `validate_pan`: five capitals, four digits, one capital; no case folding. */
  function ValidatePan(panNum: string): (ok: bool)
    ensures ok <==> (|panNum| == 10 || (|panNum| == 11 && panNum[10] == '\n')) && AnchoredPan(panNum[..10])
  {
    assert |panNum| == 10 ==> panNum[..10] == panNum;
    AnchoredPan(panNum) || AnchoredPan(Body(panNum))
  }

  /** Lower-case letters are never accepted. */
  lemma PanIsCaseSensitive(panNum: string)
    ensures ValidatePan(panNum) ==> !ValidatePan(Lower(panNum))
  {
    if ValidatePan(panNum) {
      assert !IsUpper(Lower(panNum)[0]);
    }
  }

  /** `validate_voter_id`: three letters and seven digits, after upper-casing. */
  function ValidateVoterId(voterId: string): (ok: bool)
    ensures ok <==> (|voterId| == 10 || (|voterId| == 11 && voterId[10] == '\n')) && AnchoredEpic(Upper(voterId)[..10])
  {
    var u := Upper(voterId);
    assert |u| == 10 ==> u[..10] == u;
    AnchoredEpic(u) || AnchoredEpic(Body(u))
  }

  /** `validate_driving_license`: without spaces and hyphens and upper-cased, two letters
      followed by 11 to 15 letters or digits. */
  function ValidateDrivingLicense(dlNumber: string): (ok: bool)
    ensures ok ==> 13 <= |DlClean(dlNumber)| <= 18
    ensures ok <==> AnchoredDl(Body(DlClean(dlNumber)))
  {
    var clean := DlClean(dlNumber);
    AnchoredDl(clean) || AnchoredDl(Body(clean))
  }

  function DlClean(dlNumber: string): string {
    Upper(RemoveChar(RemoveChar(dlNumber, ' '), '-'))
  }

  /** `validate_passport`: one letter and seven digits, after upper-casing. */
  function ValidatePassport(passportNum: string): (ok: bool)
    ensures ok <==> (|passportNum| == 8 || (|passportNum| == 9 && passportNum[8] == '\n'))
                    && AnchoredPassport(Upper(passportNum)[..8])
  {
    var u := Upper(passportNum);
    assert |u| == 8 ==> u[..8] == u;
    AnchoredPassport(u) || AnchoredPassport(Body(u))
  }

  /** Every string of the anchored shape is accepted, with or without one final newline. */
  lemma AnchoredFormsAccepted(w: string)
    ensures AnchoredPan(w) ==> ValidatePan(w) && ValidatePan(w + "\n")
    ensures AnchoredEpic(Upper(w)) ==> ValidateVoterId(w) && ValidateVoterId(w + "\n")
    ensures AnchoredPassport(Upper(w)) ==> ValidatePassport(w) && ValidatePassport(w + "\n")
  {
    assert (w + "\n")[..|w|] == w;
    assert Upper(w + "\n")[..|w|] == Upper(w);
  }

  /** A licence number already in cleaned form is accepted, with or without one final newline. */
  lemma DrivingLicenseAccepted(w: string)
    requires AnchoredDl(w)
    ensures ValidateDrivingLicense(w) && ValidateDrivingLicense(w + "\n")
  {
    var nl := "\n";
    assert ' ' !in w && '-' !in w by {
      forall i | 0 <= i < |w| ensures w[i] != ' ' && w[i] != '-' {
        assert IsUpper(w[i]) || IsDigit(w[i]);
      }
    }
    RemoveCharAbsent(w, ' ');
    RemoveCharAbsent(w, '-');
    RemoveCharAppend(w, nl, ' ');
    RemoveCharAppend(w, nl, '-');
    assert RemoveChar(nl, ' ') == nl && RemoveChar(nl, '-') == nl by {
      assert nl[1..] == [];
    }
    assert Upper(w) == w;
    assert Upper(w + nl) == w + nl;
    assert Body(w + nl) == w;
  }

  /** Upper-casing first makes voter ID and passport checks case-insensitive. */
  lemma CaseInsensitiveValidators(s: string)
    ensures ValidateVoterId(Lower(s)) == ValidateVoterId(s)
    ensures ValidatePassport(Lower(s)) == ValidatePassport(s)
  {
    UpperOfLower(s);
  }

  lemma PanScenarios()
    ensures ValidatePan("ABCDE1234F")
    ensures !ValidatePan("ABCDE1234")
  {
    assert !AnchoredPan(Body("ABCDE1234"));
  }

  // ---------------------------------------------------------------------------
  // Date of birth: `datetime.strptime(s, "%d/%m/%Y")`, then the logical checks.

  datatype Date = Date(year: int, month: int, day: int)

  predicate IsLeap(y: int) { (y % 4 == 0 && y % 100 != 0) || y % 400 == 0 }

  function DaysInMonth(y: int, m: int): int
    requires 1 <= m <= 12
  {
    if m == 2 then (if IsLeap(y) then 29 else 28)
    else if m == 4 || m == 6 || m == 9 || m == 11 then 30
    else 31
  }

  /** What the `datetime` constructor accepts. */
  predicate IsCalendarDate(d: Date) {
    1 <= d.year <= 9999 && 1 <= d.month <= 12 && 1 <= d.day <= DaysInMonth(d.year, d.month)
  }

  predicate After(a: Date, b: Date) {
    a.year > b.year || (a.year == b.year && (a.month > b.month || (a.month == b.month && a.day > b.day)))
  }

  function TwoDigits(t: string): int
    requires |t| == 2 && IsDigit(t[0]) && IsDigit(t[1])
  {
    10 * DigitValue(t[0]) + DigitValue(t[1])
  }

  /** `%d`: `3[01]|[12]\d|0[1-9]|[1-9]| [1-9]` covering the whole piece. */
  function ParseDay(t: string): (r: Option<int>)
    ensures r.Some? ==> 1 <= r.value <= 31
  {
    if |t| == 2 && IsDigit(t[0]) && IsDigit(t[1]) && 1 <= TwoDigits(t) <= 31 then Some(TwoDigits(t))
    else if |t| == 1 && '1' <= t[0] <= '9' then Some(DigitValue(t[0]))
    else if |t| == 2 && t[0] == ' ' && '1' <= t[1] <= '9' then Some(DigitValue(t[1]))
    else None
  }

  /** `%m`: `1[0-2]|0[1-9]|[1-9]` covering the whole piece. */
  function ParseMonth(t: string): (r: Option<int>)
    ensures r.Some? ==> 1 <= r.value <= 12
  {
    if |t| == 2 && IsDigit(t[0]) && IsDigit(t[1]) && 1 <= TwoDigits(t) <= 12 then Some(TwoDigits(t))
    else if |t| == 1 && '1' <= t[0] <= '9' then Some(DigitValue(t[0]))
    else None
  }

  /** `%Y`: exactly four digits. */
  function ParseYear(t: string): (r: Option<int>)
    ensures r.Some? ==> 0 <= r.value <= 9999
  {
    if |t| == 4 && AllDigits(t) then
      Some(1000 * DigitValue(t[0]) + 100 * DigitValue(t[1]) + 10 * DigitValue(t[2]) + DigitValue(t[3]))
    else None
  }

  /** The three '/'-separated pieces; any other shape leaves data unconverted or unmatched. */
  function ParseDmy(s: string): Option<Date> {
    var parts := Split(s, '/');
    if |parts| != 3 then None
    else
      match (ParseDay(parts[0]), ParseMonth(parts[1]), ParseYear(parts[2]))
      case (Some(d), Some(m), Some(y)) => Some(Date(y, m, d))
      case _ => None
  }

  function NormalizeSeparators(s: string): string {
    ReplaceChar(ReplaceChar(s, '.', '/'), '-', '/')
  }

  /** `validate_date_format` with `today` standing for the clock: a real calendar date,
      not after today, and not before 1900. */
  function ValidateDateFormat(dateStr: string, today: Date): (ok: bool)
    ensures ok ==> ParseDmy(NormalizeSeparators(dateStr)).Some?
    ensures ok ==> var d := ParseDmy(NormalizeSeparators(dateStr)).value;
                   IsCalendarDate(d) && d.year >= 1900 && !After(d, today)
  {
    match ParseDmy(NormalizeSeparators(dateStr))
    case None => false
    case Some(dob) => IsCalendarDate(dob) && !After(dob, today) && dob.year >= 1900
  }

  lemma SplitNoSeparator(a: string, sep: char)
    requires sep !in a
    ensures Split(a, sep) == [a]
  {
    if a != [] {
      SplitNoSeparator(a[1..], sep);
      assert [a[0]] + a[1..] == a;
    }
  }

  lemma SplitFirst(a: string, sep: char, b: string)
    requires sep !in a
    ensures Split(a + [sep] + b, sep) == [a] + Split(b, sep)
  {
    if a == [] {
      assert a + [sep] + b == [sep] + b;
      assert ([sep] + b)[1..] == b;
    } else {
      assert (a + [sep] + b)[0] == a[0];
      assert (a + [sep] + b)[1..] == a[1..] + [sep] + b;
      SplitFirst(a[1..], sep, b);
      assert [a[0]] + a[1..] == a;
    }
  }

  /** A day, month and year written with digits only, as the extraction date pattern
      `\d{2}[-/.]\d{2}[-/.]\d{4}` captures them. */
  lemma DmyPieces(dd: string, mm: string, yyyy: string)
    requires AllDigits(dd) && AllDigits(mm) && AllDigits(yyyy)
    ensures ParseDmy(dd + "/" + mm + "/" + yyyy) ==
      match (ParseDay(dd), ParseMonth(mm), ParseYear(yyyy))
      case (Some(d), Some(m), Some(y)) => Some(Date(y, m, d))
      case _ => None
  {
    assert '/' !in dd && '/' !in mm && '/' !in yyyy;
    SplitFirst(dd, '/', mm + "/" + yyyy);
    SplitFirst(mm, '/', yyyy);
    SplitNoSeparator(yyyy, '/');
    assert dd + "/" + mm + "/" + yyyy == dd + ['/'] + (mm + ['/'] + yyyy);
  }

  /** The three separators the date pattern allows are all normalised to '/'. */
  lemma SeparatorsNormalised(dd: string, s1: char, mm: string, s2: char, yyyy: string, today: Date)
    requires AllDigits(dd) && AllDigits(mm) && AllDigits(yyyy)
    requires s1 in "-/." && s2 in "-/."
    ensures ValidateDateFormat(dd + [s1] + mm + [s2] + yyyy, today) == ValidateDateFormat(dd + "/" + mm + "/" + yyyy, today)
  {
    var s := dd + [s1] + mm + [s2] + yyyy;
    var t := dd + "/" + mm + "/" + yyyy;
    assert NormalizeSeparators(s) == t;
    assert NormalizeSeparators(t) == t;
  }

  /** `dd/mm/yyyy` written with two, two and four digits. */
  lemma NumericDate(dd: string, mm: string, yyyy: string, today: Date)
    requires |dd| == 2 && |mm| == 2 && |yyyy| == 4
    requires AllDigits(dd) && AllDigits(mm) && AllDigits(yyyy)
    ensures var d := Date(ParseYear(yyyy).value, TwoDigits(mm), TwoDigits(dd));
      ValidateDateFormat(dd + "/" + mm + "/" + yyyy, today) ==
        (1 <= d.month <= 12 && 1 <= d.day && IsCalendarDate(d) && !After(d, today) && d.year >= 1900)
  {
    var t := dd + "/" + mm + "/" + yyyy;
    assert NormalizeSeparators(t) == t;
    DmyPieces(dd, mm, yyyy);
  }

  /** "31/02/2020" parses but is not a calendar date. */
  lemma NoThirtyFirstOfFebruary(today: Date)
    ensures !ValidateDateFormat("31/02/2020", today)
  {
    NumericDate("31", "02", "2020", today);
    assert "31" + "/" + "02" + "/" + "2020" == "31/02/2020";
  }

  /** An ordinary past date is accepted. */
  lemma PastDateAccepted(today: Date)
    requires !After(Date(1990, 5, 15), today)
    ensures ValidateDateFormat("15/05/1990", today)
  {
    NumericDate("15", "05", "1990", today);
    assert "15" + "/" + "05" + "/" + "1990" == "15/05/1990";
  }

  /** The lower bound is the year 1900 itself; nothing bounds the age at 120 years. */
  lemma YearBound(today: Date)
    ensures !After(Date(1900, 1, 1), today) ==> ValidateDateFormat("01/01/1900", today)
    ensures !ValidateDateFormat("31/12/1899", today)
  {
    NumericDate("01", "01", "1900", today);
    NumericDate("31", "12", "1899", today);
    assert "01" + "/" + "01" + "/" + "1900" == "01/01/1900";
    assert "31" + "/" + "12" + "/" + "1899" == "31/12/1899";
  }

  /** A date after today is rejected. */
  lemma FutureDateRejected(dateStr: string, today: Date)
    requires ParseDmy(NormalizeSeparators(dateStr)).Some?
    requires After(ParseDmy(NormalizeSeparators(dateStr)).value, today)
    ensures !ValidateDateFormat(dateStr, today)
  {
  }
}
