/** The version comparison of the login server. */
module Version {
  import J = SnapshotJson

  const MAX_INT: int := 0x7FFF_FFFF_FFFF_FFFF
  const MIN_INT: int := -0x8000_0000_0000_0000
  const MAX_UINT: int := 0xFFFF_FFFF_FFFF_FFFF

  // ---- strings.Split and strconv.Atoi ----

  /** The pieces of `s` between dots; one empty piece for the empty string. */
  function Split(s: string): (parts: seq<string>)
    ensures parts != []
  {
    if s == [] then [""]
    else if s[0] == '.' then [""] + Split(s[1..])
    else var rest := Split(s[1..]); [[s[0]] + rest[0]] + rest[1..]
  }

  datatype Digits = NotDigits | TooLarge | Number(value: int)

  /** Reading digits after the number `n`: the first character that is no digit spoils
      the piece, unless the number has already outgrown 64 bits, which ends the reading. */
  function ReadDigits(s: string, n: nat): Digits {
    if s == [] then Number(n)
    else if !('0' <= s[0] <= '9') then NotDigits
    else
      var n' := n * 10 + (s[0] as int - '0' as int);
      if n' > MAX_UINT then TooLarge else ReadDigits(s[1..], n')
  }

  function Clamp(i: int): int {
    if i > MAX_INT then MAX_INT else if i < MIN_INT then MIN_INT else i
  }

  /** `x, _ = strconv.Atoi(s)`: 0 for a piece that is no number, the nearest 64-bit
      integer for one that is out of range. */
  function Atoi(s: string): int {
    var negative := s != [] && s[0] == '-';
    var digits := if s != [] && (s[0] == '-' || s[0] == '+') then s[1..] else s;
    if digits == [] then 0
    else
      match ReadDigits(digits, 0)
      case NotDigits => 0
      case TooLarge => if negative then MIN_INT else MAX_INT
      case Number(n) => Clamp(if negative then -n else n)
  }

  // ---- CompareVersion ----

  /** The integer at place `i` of a version, absent places counting as 0. */
  function Place(parts: seq<string>, i: nat): int {
    if i < |parts| then Atoi(parts[i]) else 0
  }

  method CompareVersion(v1: string, v2: string) returns (result: int)
    ensures result == Compare(v1, v2)
  {
    var parts1, parts2 := Split(v1), Split(v2);
    var i := 0;
    while i < |parts1| || i < |parts2|
      invariant 0 <= i && (i <= |parts1| || i <= |parts2|)
      invariant forall j | 0 <= j < i :: Place(parts1, j) == Place(parts2, j)
      decreases |parts1| + |parts2| - i
    {
      var x, y := 0, 0;
      if i < |parts1| {
        x := Atoi(parts1[i]);
      }
      if i < |parts2| {
        y := Atoi(parts2[i]);
      }
      if x > y {
        DecidedAt(parts1, parts2, i);
        return 1;
      }
      if x < y {
        DecidedAt(parts1, parts2, i);
        return -1;
      }
      i := i + 1;
    }
    Undecided(parts1, parts2);
    return 0;
  }

  // ---- What the comparison means ----

  /** The two versions first differ at place `i`. */
  ghost predicate DifferAt(a: seq<string>, b: seq<string>, i: nat) {
    Place(a, i) != Place(b, i) && forall j: nat | j < i :: Place(a, j) == Place(b, j)
  }

  ghost predicate SamePlaces(a: seq<string>, b: seq<string>) {
    forall i: nat :: Place(a, i) == Place(b, i)
  }

  function Sign(i: int): int {
    if i < 0 then -1 else if i > 0 then 1 else 0
  }

  /** The lexicographic order of the two endless sequences of places. */
  ghost function Compare(v1: string, v2: string): int {
    var a, b := Split(v1), Split(v2);
    if i: nat :| DifferAt(a, b, i) then Sign(Place(a, i) - Place(b, i)) else 0
  }

  lemma OneDifference(a: seq<string>, b: seq<string>, i: nat, j: nat)
    requires DifferAt(a, b, i) && DifferAt(a, b, j)
    ensures i == j
  {
  }

  lemma DecidedAt(a: seq<string>, b: seq<string>, i: nat)
    requires Place(a, i) != Place(b, i) && forall j | 0 <= j < i :: Place(a, j) == Place(b, j)
    ensures DifferAt(a, b, i)
    ensures forall j: nat | DifferAt(a, b, j) :: j == i
  {
  }

  lemma Undecided(a: seq<string>, b: seq<string>)
    requires forall j | 0 <= j < |a| || 0 <= j < |b| :: Place(a, j) == Place(b, j)
    ensures forall j: nat :: !DifferAt(a, b, j)
  {
  }

  lemma {:induction false} FirstDifference(a: seq<string>, b: seq<string>, i: nat)
    requires Place(a, i) != Place(b, i)
    ensures exists j: nat :: j <= i && DifferAt(a, b, j)
    decreases i
  {
    if j: nat :| j < i && Place(a, j) != Place(b, j) {
      FirstDifference(a, b, j);
    } else {
      assert DifferAt(a, b, i);
    }
  }

  /** Equal versions are those with the same places. */
  lemma CompareZero(v1: string, v2: string)
    ensures Compare(v1, v2) == 0 <==> SamePlaces(Split(v1), Split(v2))
  {
    var a, b := Split(v1), Split(v2);
    if !SamePlaces(a, b) {
      var i: nat :| Place(a, i) != Place(b, i);
      FirstDifference(a, b, i);
    }
  }

  lemma CompareAt(v1: string, v2: string, i: nat)
    requires DifferAt(Split(v1), Split(v2), i)
    ensures Compare(v1, v2) == Sign(Place(Split(v1), i) - Place(Split(v2), i))
  {
    var a, b := Split(v1), Split(v2);
    var j: nat :| DifferAt(a, b, j) && Compare(v1, v2) == Sign(Place(a, j) - Place(b, j));
    OneDifference(a, b, i, j);
  }

  /** Swapping the arguments swaps the verdict. */
  lemma CompareAntisymmetric(v1: string, v2: string)
    ensures Compare(v1, v2) == -Compare(v2, v1)
  {
    var a, b := Split(v1), Split(v2);
    if i: nat :| DifferAt(a, b, i) {
      assert DifferAt(b, a, i);
      CompareAt(v1, v2, i);
      CompareAt(v2, v1, i);
    } else {
      assert forall i: nat :: DifferAt(b, a, i) ==> DifferAt(a, b, i);
    }
  }

  /** Versions that compare equal compare alike with every third version. */
  lemma CompareCongruent(v1: string, v2: string, v: string)
    requires Compare(v1, v2) == 0
    ensures Compare(v1, v) == Compare(v2, v) && Compare(v, v1) == Compare(v, v2)
  {
    CompareZero(v1, v2);
    var a, b, c := Split(v1), Split(v2), Split(v);
    if i: nat :| DifferAt(a, c, i) {
      assert DifferAt(b, c, i);
      CompareAt(v1, v, i);
      CompareAt(v2, v, i);
    } else {
      assert forall i: nat :: DifferAt(b, c, i) ==> DifferAt(a, c, i);
    }
    CompareAntisymmetric(v1, v);
    CompareAntisymmetric(v2, v);
  }

  /** The comparison is transitive, strictly so as soon as one of its steps is strict. */
  lemma CompareTransitive(v1: string, v2: string, v3: string)
    requires Compare(v1, v2) <= 0 && Compare(v2, v3) <= 0
    ensures Compare(v1, v3) <= 0
    ensures Compare(v1, v3) == 0 <==> Compare(v1, v2) == 0 && Compare(v2, v3) == 0
  {
    if Compare(v1, v2) == 0 {
      CompareCongruent(v1, v2, v3);
    } else if Compare(v2, v3) == 0 {
      CompareCongruent(v2, v3, v1);
    } else {
      var a, b, c := Split(v1), Split(v2), Split(v3);
      var i: nat :| DifferAt(a, b, i);
      var j: nat :| DifferAt(b, c, j);
      CompareAt(v1, v2, i);
      CompareAt(v2, v3, j);
      var k := if i < j then i else j;
      assert DifferAt(a, c, k);
      CompareAt(v1, v3, k);
    }
  }

  lemma {:induction false} SplitAppend(s: string, piece: string)
    requires '.' !in piece
    ensures Split(s + "." + piece) == Split(s) + [piece]
    decreases |s|
  {
    if s == [] {
      assert s + "." + piece == "." + piece;
      SplitPiece(piece);
    } else {
      assert (s + "." + piece)[1..] == s[1..] + "." + piece;
      SplitAppend(s[1..], piece);
      assert (s + "." + piece)[0] == s[0];
    }
  }

  lemma {:induction false} SplitPiece(piece: string)
    requires '.' !in piece
    ensures Split(piece) == [piece]
    ensures Split("." + piece) == ["", piece]
  {
    if piece != [] {
      SplitPiece(piece[1..]);
      assert piece == [piece[0]] + piece[1..];
    }
    assert ("." + piece)[1..] == piece;
  }

  /** A trailing ".0" never changes a verdict. */
  lemma TrailingZero(v1: string, v2: string)
    ensures Compare(v1 + ".0", v2) == Compare(v1, v2)
    ensures Compare(v1, v2 + ".0") == Compare(v1, v2)
  {
    ZeroAppended(v1);
    ZeroAppended(v2);
    CompareCongruent(v1 + ".0", v1, v2);
    CompareCongruent(v2 + ".0", v2, v1);
  }

  lemma ZeroAppended(v: string)
    ensures Compare(v + ".0", v) == 0
  {
    SplitAppend(v, "0");
    assert v + "." + "0" == v + ".0";
    assert "0"[1..] == "";
    assert ReadDigits("0", 0) == Number(0);
    assert Atoi("0") == 0;
    CompareZero(v + ".0", v);
  }

  // ---- What a piece stands for ----

  predicate AllDigits(s: string) {
    forall i | 0 <= i < |s| :: '0' <= s[i] <= '9'
  }

  /** The number after writing the digits `s` behind the number `n`. */
  ghost function Grown(n: nat, s: string): nat
    requires AllDigits(s)
    decreases |s|
  {
    if s == [] then n else Grown(n * 10 + (s[0] as int - '0' as int), s[1..])
  }

  lemma {:induction false} GrownGrows(n: nat, s: string)
    requires AllDigits(s)
    ensures Grown(n, s) >= n
    decreases |s|
  {
    if s != [] {
      GrownGrows(n * 10 + (s[0] as int - '0' as int), s[1..]);
    }
  }

  lemma {:induction false} ReadsGrown(s: string, rest: string, n: nat)
    requires AllDigits(s) && n <= MAX_UINT
    ensures ReadDigits(s + rest, n)
         == if Grown(n, s) > MAX_UINT then TooLarge else ReadDigits(rest, Grown(n, s))
    decreases |s|
  {
    if s == [] {
      assert s + rest == rest;
    } else {
      var n' := n * 10 + (s[0] as int - '0' as int);
      assert (s + rest)[1..] == s[1..] + rest;
      GrownGrows(n', s[1..]);
      if n' <= MAX_UINT {
        ReadsGrown(s[1..], rest, n');
      }
    }
  }

  lemma {:induction false} GrownAppend(n: nat, s: string, c: char)
    requires AllDigits(s) && '0' <= c <= '9'
    ensures Grown(n, s + [c]) == Grown(n, s) * 10 + (c as int - '0' as int)
    decreases |s|
  {
    if s == [] {
      assert s + [c] == [c] && [c][1..] == [];
    } else {
      assert (s + [c])[1..] == s[1..] + [c];
      GrownAppend(n * 10 + (s[0] as int - '0' as int), s[1..], c);
    }
  }

  lemma {:induction false} GrownIsValue(s: string)
    requires AllDigits(s)
    ensures Grown(0, s) == J.DigitsValue(s)
    decreases |s|
  {
    if s != [] {
      var k := |s| - 1;
      GrownIsValue(s[..k]);
      assert s == s[..k] + [s[k]];
      GrownAppend(0, s[..k], s[k]);
    }
  }

  lemma ReadsValue(s: string, rest: string)
    requires AllDigits(s)
    ensures J.DigitsValue(s) >= 0
    ensures ReadDigits(s + rest, 0)
         == if J.DigitsValue(s) > MAX_UINT then TooLarge else ReadDigits(rest, J.DigitsValue(s))
  {
    ReadsGrown(s, rest, 0);
    GrownIsValue(s);
  }

  lemma SignedPiece(t: string)
    ensures ("+" + t)[1..] == t && ("-" + t)[1..] == t
  {
  }

  /** Digits stand for their decimal value, leading zeros included; a sign may precede
      them, and values outside 64 bits count as the nearest one inside. */
  lemma PieceValue(s: string)
    requires s != [] && AllDigits(s)
    ensures 0 <= J.DigitsValue(s) < 0x8000_0000_0000_0000
            ==> Atoi(s) == Atoi("+" + s) == J.DigitsValue(s) && Atoi("-" + s) == -J.DigitsValue(s)
    ensures J.DigitsValue(s) >= 0x8000_0000_0000_0000
            ==> Atoi(s) == Atoi("+" + s) == 0x7FFF_FFFF_FFFF_FFFF && Atoi("-" + s) == -0x8000_0000_0000_0000
    ensures J.DigitsValue(s) >= 0
  {
    ReadsValue(s, "");
    assert s + "" == s;
    SignedPiece(s);
  }

  /** A piece without digits behind its sign counts as 0, and so does one whose first
      character that is no digit stands at `k`, unless the digits before it have already
      outgrown 64 bits without sign. */
  lemma SpoiledPiece(s: string, k: nat)
    requires k <= |s| && AllDigits(s[..k])
    requires if k == |s| then s == [] else !('0' <= s[k] <= '9')
    ensures J.DigitsValue(s[..k]) <= 0xFFFF_FFFF_FFFF_FFFF
            ==> (s == [] || s[0] !in "+-" ==> Atoi(s) == 0) && Atoi("+" + s) == Atoi("-" + s) == 0
    ensures J.DigitsValue(s[..k]) > 0xFFFF_FFFF_FFFF_FFFF
            ==> Atoi(s) == Atoi("+" + s) == 0x7FFF_FFFF_FFFF_FFFF && Atoi("-" + s) == -0x8000_0000_0000_0000
  {
    ReadsValue(s[..k], s[k..]);
    assert s == s[..k] + s[k..];
    SignedPiece(s);
    if k > 0 {
      assert s[0] == s[..k][0];
    }
  }

  /** A printed 64-bit integer reads back. */
  lemma AtoiUndoesDecimal(n: int)
    requires -0x8000_0000_0000_0000 <= n <= 0x7FFF_FFFF_FFFF_FFFF
    ensures Atoi(J.Decimal(n)) == n
  {
    var m := if n < 0 then -n else n;
    J.DigitsAreDigits(m);
    assert forall i | 0 <= i < |J.Digits(m)| :: J.Digits(m)[i] in J.Digits(m);
    PieceValue(J.Digits(m));
  }

  // ---- Versions as lists of integers ----

  /** Lists compared place by place, the shorter one padded with zeros. */
  function CompareLists(a: seq<int>, b: seq<int>): int
    decreases |a| + |b|
  {
    if a == [] && b == [] then 0
    else
      var x, y := if a == [] then 0 else a[0], if b == [] then 0 else b[0];
      if x > y then 1 else if x < y then -1
      else CompareLists(if a == [] then [] else a[1..], if b == [] then [] else b[1..])
  }

  function Numbers(parts: seq<string>): (a: seq<int>) {
    seq(|parts|, i requires 0 <= i < |parts| => Atoi(parts[i]))
  }

  ghost function Padded(a: seq<int>, i: nat): int {
    if i < |a| then a[i] else 0
  }

  lemma {:induction false} ListsDifferAt(a: seq<int>, b: seq<int>, i: nat)
    requires Padded(a, i) != Padded(b, i) && forall j: nat | j < i :: Padded(a, j) == Padded(b, j)
    ensures CompareLists(a, b) == Sign(Padded(a, i) - Padded(b, i))
    decreases i
  {
    if i > 0 {
      var a', b' := if a == [] then [] else a[1..], if b == [] then [] else b[1..];
      assert forall j: nat | j < i :: Padded(a', j) == Padded(a, j + 1) && Padded(b', j) == Padded(b, j + 1);
      assert Padded(a, 0) == Padded(b, 0);
      ListsDifferAt(a', b', i - 1);
    }
  }

  lemma {:induction false} ListsAgree(a: seq<int>, b: seq<int>)
    requires forall j: nat :: Padded(a, j) == Padded(b, j)
    ensures CompareLists(a, b) == 0
    decreases |a| + |b|
  {
    if a != [] || b != [] {
      var a', b' := if a == [] then [] else a[1..], if b == [] then [] else b[1..];
      assert Padded(a, 0) == Padded(b, 0);
      assert forall j: nat :: Padded(a', j) == Padded(a, j + 1) && Padded(b', j) == Padded(b, j + 1);
      ListsAgree(a', b');
    }
  }

  /** Versions compare as the integers of their pieces do. */
  lemma CompareIsListOrder(v1: string, v2: string)
    ensures Compare(v1, v2) == CompareLists(Numbers(Split(v1)), Numbers(Split(v2)))
  {
    var a, b := Split(v1), Split(v2);
    assert forall j: nat :: Padded(Numbers(a), j) == Place(a, j) && Padded(Numbers(b), j) == Place(b, j);
    if i: nat :| DifferAt(a, b, i) {
      CompareAt(v1, v2, i);
      ListsDifferAt(Numbers(a), Numbers(b), i);
    } else {
      CompareZero(v1, v2);
      ListsAgree(Numbers(a), Numbers(b));
    }
  }

  /** The integers of `a`, printed with dots between them. */
  function Dotted(a: seq<int>): string
    requires a != []
  {
    var k := |a| - 1;
    if k == 0 then J.Decimal(a[0]) else Dotted(a[..k]) + "." + J.Decimal(a[k])
  }

  predicate AllFit(a: seq<int>) {
    forall i | 0 <= i < |a| :: -0x8000_0000_0000_0000 <= a[i] <= 0x7FFF_FFFF_FFFF_FFFF
  }

  lemma {:induction false} SplitDotted(a: seq<int>)
    requires a != [] && AllFit(a)
    ensures Numbers(Split(Dotted(a))) == a
    decreases |a|
  {
    hide Split, Atoi, J.Decimal;
    var k := |a| - 1;
    J.DecimalHasNo(a[k], '.');
    AtoiUndoesDecimal(a[k]);
    if k == 0 {
      SplitPiece(J.Decimal(a[0]));
    } else {
      SplitDotted(a[..k]);
      SplitAppend(Dotted(a[..k]), J.Decimal(a[k]));
      assert a == Numbers(Split(Dotted(a[..k]))) + [a[k]];
    }
  }

  /** Two printed versions compare as the integers they were printed from do. */
  lemma PrintedVersionsCompare(a: seq<int>, b: seq<int>)
    requires a != [] && b != [] && AllFit(a) && AllFit(b)
    ensures Compare(Dotted(a), Dotted(b)) == CompareLists(a, b)
  {
    SplitDotted(a);
    SplitDotted(b);
    CompareIsListOrder(Dotted(a), Dotted(b));
  }
}
