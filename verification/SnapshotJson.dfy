/** The player list text of `Room::BuildSnapshotJson`, and why it loses nothing. */
module SnapshotJson {
  import opened Types

  /** One element of the list, in the order the fields are printed. */
  datatype Row = Row(uid: uint32, nickname: string, characterId: int32)

  function DigitChar(d: nat): char
    requires d < 10
  {
    ('0' as int + d) as char
  }

  function Digits(n: nat): string {
    if n < 10 then [DigitChar(n)] else Digits(n / 10) + [DigitChar(n % 10)]
  }

  /** `std::to_string`. */
  function Decimal(i: int): string {
    if i < 0 then "-" + Digits(-i) else Digits(i)
  }

  /** One printed element; `k1`, `k2` and `k3` are the texts around the three fields. */
  function Format(p: Row, k1: string, k2: string, k3: string): string {
    k1 + Decimal(p.uid) + "," + k2 + p.nickname + "\"" + k3 + Decimal(p.characterId) + "}"
  }

  function Entry(p: Row): string {
    Format(p, "{\"uid\":", "\"nickname\":\"", ",\"character_id\":")
  }

  function Items(rows: seq<Row>, first: bool): string {
    if rows == [] then "" else (if first then "" else ",") + Entry(rows[0]) + Items(rows[1..], false)
  }

  function Snapshot(rows: seq<Row>): string {
    "[" + Items(rows, true) + "]"
  }

  ghost function DigitsValue(s: string): int {
    if s == [] then 0 else DigitsValue(s[..|s| - 1]) * 10 + (s[|s| - 1] as int - '0' as int)
  }

  lemma {:induction false} DigitsAreDigits(n: nat)
    ensures Digits(n) != []
    ensures forall c | c in Digits(n) :: '0' <= c <= '9'
    ensures DigitsValue(Digits(n)) == n
  {
    if n >= 10 {
      DigitsAreDigits(n / 10);
      assert Digits(n)[..|Digits(n)| - 1] == Digits(n / 10);
    } else {
      assert DigitsValue([]) == 0;
    }
  }

  lemma DecimalInjective(i: int, j: int)
    requires Decimal(i) == Decimal(j)
    ensures i == j
  {
    DigitsAreDigits(if i < 0 then -i else i);
    DigitsAreDigits(if j < 0 then -j else j);
    assert Decimal(i)[0] in Decimal(i) && Decimal(j)[0] in Decimal(j);
    assert i < 0 <==> Decimal(i)[0] == '-';
    assert j < 0 <==> Decimal(j)[0] == '-';
    if i < 0 {
      assert Decimal(i)[1..] == Digits(-i);
      assert Decimal(j)[1..] == Digits(-j);
    }
  }

  lemma DecimalHasNo(i: int, c: char)
    requires c != '-' && !('0' <= c <= '9')
    ensures c !in Decimal(i)
  {
    DigitsAreDigits(if i < 0 then -i else i);
  }

  /** A delimiter that occurs in neither word separates the same word on both sides. */
  lemma CutAt(a: string, s: string, b: string, t: string, c: char)
    requires c !in a && c !in b
    requires a + ([c] + s) == b + ([c] + t)
    ensures a == b && s == t
  {
    var u, v := a + ([c] + s), b + ([c] + t);
    assert forall i | 0 <= i < |a| :: u[i] == a[i] && u[i] != c;
    assert forall i | 0 <= i < |b| :: v[i] == b[i] && v[i] != c;
    assert u[|a|] == c && v[|b|] == c;
    assert a == u[..|a|] == v[..|b|] == b;
    assert s == u[|a| + 1..] == v[|b| + 1..] == t;
  }

  lemma CutPrefix(p: string, s: string, t: string)
    requires p + s == p + t
    ensures s == t
  {
    assert s == (p + s)[|p|..] == (p + t)[|p|..] == t;
  }

  lemma Associative(a: string, b: string, c: string)
    ensures a + b + c == a + (b + c)
  {
  }

  lemma FormatUnrolls(p: Row, s: string, k1: string, k2: string, k3: string)
    ensures Format(p, k1, k2, k3) + s
         == k1 + (Decimal(p.uid) + ("," + (k2 + (p.nickname + ("\"" + (k3 + (Decimal(p.characterId) + ("}" + s))))))))
  {
    var f0, d := k1 + Decimal(p.uid), Decimal(p.characterId);
    var f1 := f0 + ",";
    var f2 := f1 + k2;
    var f3 := f2 + p.nickname;
    var f4 := f3 + "\"";
    var f5 := f4 + k3;
    Associative(f5 + d, "}", s);
    Associative(f5, d, "}" + s);
    Associative(f4, k3, d + ("}" + s));
    Associative(f3, "\"", k3 + (d + ("}" + s)));
    Associative(f2, p.nickname, "\"" + (k3 + (d + ("}" + s))));
    Associative(f1, k2, p.nickname + ("\"" + (k3 + (d + ("}" + s)))));
    Associative(f0, ",", k2 + (p.nickname + ("\"" + (k3 + (d + ("}" + s))))));
    Associative(k1, Decimal(p.uid), "," + (k2 + (p.nickname + ("\"" + (k3 + (d + ("}" + s)))))));
  }

  /** An entry can be read back off the front of any text. */
  lemma FormatCancels(p: Row, q: Row, s: string, t: string, k1: string, k2: string, k3: string)
    requires '"' !in p.nickname && '"' !in q.nickname
    requires Format(p, k1, k2, k3) + s == Format(q, k1, k2, k3) + t
    ensures p == q && s == t
  {
    FormatUnrolls(p, s, k1, k2, k3);
    FormatUnrolls(q, t, k1, k2, k3);
    var p3, q3 := Decimal(p.characterId) + ("}" + s), Decimal(q.characterId) + ("}" + t);
    var p2, q2 := p.nickname + ("\"" + (k3 + p3)), q.nickname + ("\"" + (k3 + q3));
    var p1, q1 := Decimal(p.uid) + ("," + (k2 + p2)), Decimal(q.uid) + ("," + (k2 + q2));
    CutPrefix(k1, p1, q1);
    DecimalHasNo(p.uid, ',');
    DecimalHasNo(q.uid, ',');
    CutAt(Decimal(p.uid), k2 + p2, Decimal(q.uid), k2 + q2, ',');
    CutPrefix(k2, p2, q2);
    CutAt(p.nickname, k3 + p3, q.nickname, k3 + q3, '"');
    CutPrefix(k3, p3, q3);
    DecimalHasNo(p.characterId, '}');
    DecimalHasNo(q.characterId, '}');
    CutAt(Decimal(p.characterId), s, Decimal(q.characterId), t, '}');
    DecimalInjective(p.uid, q.uid);
    DecimalInjective(p.characterId, q.characterId);
  }

  lemma EntryCancels(p: Row, q: Row, s: string, t: string)
    requires '"' !in p.nickname && '"' !in q.nickname
    requires Entry(p) + s == Entry(q) + t
    ensures p == q && s == t
  {
    FormatCancels(p, q, s, t, "{\"uid\":", "\"nickname\":\"", ",\"character_id\":");
  }

  lemma ItemsUnroll(a: seq<Row>, first: bool)
    requires a != []
    ensures Items(a, first) + "]" == (if first then "" else ",") + (Entry(a[0]) + (Items(a[1..], false) + "]"))
  {
    var c, e, s := if first then "" else ",", Entry(a[0]), Items(a[1..], false);
    Associative(c + e, s, "]");
    Associative(c, e, s + "]");
  }

  lemma {:induction false} ItemsInjective(a: seq<Row>, b: seq<Row>, first: bool)
    requires forall r | r in a :: '"' !in r.nickname
    requires forall r | r in b :: '"' !in r.nickname
    requires Items(a, first) + "]" == Items(b, first) + "]"
    ensures a == b
  {
    hide Entry, Items;
    if a != [] && b != [] {
      ItemsUnroll(a, first);
      ItemsUnroll(b, first);
      var c := if first then "" else ",";
      var s, t := Items(a[1..], false) + "]", Items(b[1..], false) + "]";
      CutPrefix(c, Entry(a[0]) + s, Entry(b[0]) + t);
      EntryCancels(a[0], b[0], s, t);
      ItemsInjective(a[1..], b[1..], false);
      assert a == [a[0]] + a[1..] && b == [b[0]] + b[1..];
    } else {
      ItemsEmpty(a, b, first);
    }
  }

  lemma ItemsEmpty(a: seq<Row>, b: seq<Row>, first: bool)
    requires a == [] || b == []
    requires Items(a, first) + "]" == Items(b, first) + "]"
    ensures a == b
  {
    assert |Items(a, first)| + 1 == |Items(a, first) + "]"| == |Items(b, first) + "]"| == |Items(b, first)| + 1;
    ItemsNonEmpty(a, first);
    ItemsNonEmpty(b, first);
  }

  lemma ItemsNonEmpty(a: seq<Row>, first: bool)
    ensures a == [] <==> |Items(a, first)| == 0
  {
    if a != [] {
      assert |Items(a, first)| >= |Entry(a[0])|;
    }
  }

  /** Player lists whose nicknames hold no double quote print to different texts
      whenever they differ in a uid, a nickname, a character or the join order. */
  lemma SnapshotLosesNothing(a: seq<Row>, b: seq<Row>)
    requires forall r | r in a :: '"' !in r.nickname
    requires forall r | r in b :: '"' !in r.nickname
    ensures Snapshot(a) == Snapshot(b) <==> a == b
  {
    if Snapshot(a) == Snapshot(b) {
      Associative("[", Items(a, true), "]");
      Associative("[", Items(b, true), "]");
      CutPrefix("[", Items(a, true) + "]", Items(b, true) + "]");
      ItemsInjective(a, b, true);
    }
  }

  /** Quotes are not escaped: any two players can be printed as one whose nickname
      holds the text between the two nicknames. */
  lemma QuoteForgesAPlayer(p: Row, q: Row)
    ensures exists n :: Snapshot([Row(p.uid, n, q.characterId)]) == Snapshot([p, q])
  {
    var k1, k2, k3 := "{\"uid\":", "\"nickname\":\"", ",\"character_id\":";
    var n := Forged(p, q, k1, k2, k3);
    ForgedFormat(p, q, k1, k2, k3);
    assert Entry(Row(p.uid, n, q.characterId)) == Entry(p) + ("," + Entry(q));
    hide Entry, Format, Forged;
    OneEntry(Row(p.uid, n, q.characterId), true);
    TwoEntries(p, q);
    assert Snapshot([Row(p.uid, n, q.characterId)]) == Snapshot([p, q]);
  }

  lemma OneEntry(p: Row, first: bool)
    ensures Items([p], first) == (if first then "" else ",") + Entry(p)
  {
    assert [p][1..] == [];
  }

  lemma TwoEntries(p: Row, q: Row)
    ensures Items([p, q], true) == Entry(p) + ("," + Entry(q))
  {
    assert [p, q][1..] == [q];
    OneEntry(q, false);
  }

  ghost function Forged(p: Row, q: Row, k1: string, k2: string, k3: string): string {
    p.nickname + "\"" + k3 + Decimal(p.characterId) + "}," + k1 + Decimal(q.uid) + "," + k2 + q.nickname
  }

  lemma ForgedUnrolls(p: Row, q: Row, k1: string, k2: string, k3: string, x: string)
    ensures Forged(p, q, k1, k2, k3) + x
         == p.nickname + ("\"" + (k3 + (Decimal(p.characterId) + ("}," +
              (k1 + (Decimal(q.uid) + ("," + (k2 + (q.nickname + x)))))))))
  {
    var f1 := p.nickname + "\"";
    var f2 := f1 + k3;
    var f3 := f2 + Decimal(p.characterId);
    var f4 := f3 + "},";
    var f5 := f4 + k1;
    var f6 := f5 + Decimal(q.uid);
    var f7 := f6 + ",";
    var f8 := f7 + k2;
    var x8 := q.nickname + x;
    var x6 := "," + (k2 + x8);
    var x5 := Decimal(q.uid) + x6;
    var x3 := "}," + (k1 + x5);
    var x2 := Decimal(p.characterId) + x3;
    Associative(f8, q.nickname, x);
    Associative(f7, k2, x8);
    Associative(f6, ",", k2 + x8);
    Associative(f5, Decimal(q.uid), x6);
    Associative(f4, k1, x5);
    Associative(f3, "},", k1 + x5);
    Associative(f2, Decimal(p.characterId), x3);
    Associative(f1, k3, x2);
    Associative(p.nickname, "\"", k3 + x2);
  }

  lemma ForgedFormat(p: Row, q: Row, k1: string, k2: string, k3: string)
    ensures Format(Row(p.uid, Forged(p, q, k1, k2, k3), q.characterId), k1, k2, k3)
         == Format(p, k1, k2, k3) + ("," + Format(q, k1, k2, k3))
  {
    var r := Row(p.uid, Forged(p, q, k1, k2, k3), q.characterId);
    var x := "\"" + (k3 + (Decimal(q.characterId) + ("}" + "")));
    var fq := Format(q, k1, k2, k3);
    FormatUnrolls(r, "", k1, k2, k3);
    FormatUnrolls(q, "", k1, k2, k3);
    FormatUnrolls(p, "," + fq, k1, k2, k3);
    ForgedUnrolls(p, q, k1, k2, k3, x);
    Nothing(Format(r, k1, k2, k3));
    Nothing(fq);
    assert "}" + "," == "},";
    Associative("}", ",", fq);
  }

  /** Writing item `i` after what is already written. */
  lemma AppendItem(json: string, rows: seq<Row>, i: nat, first: bool)
    requires i < |rows|
    ensures json + (if first then "" else ",") + Entry(rows[i]) + Items(rows[i + 1..], false)
         == json + Items(rows[i..], first)
  {
    hide Entry;
    var c, e, s := if first then "" else ",", Entry(rows[i]), Items(rows[i + 1..], false);
    assert rows[i..][1..] == rows[i + 1..];
    assert Items(rows[i..], first) == c + e + s;
    hide Items;
    Associative(json, c, e);
    Associative(json, c + e, s);
  }

  lemma Nothing(a: string)
    ensures a + "" == a
  {
  }

  // Section 7 of RFC 8259: the characters a string may hold unescaped, and the escapes.
  predicate Unescaped(c: char) {
    ' ' <= c && c != '"' && c != '\\'
  }

  predicate HexDigit(c: char) {
    '0' <= c <= '9' || 'a' <= c <= 'f' || 'A' <= c <= 'F'
  }

  predicate JsonChars(s: string) {
    s == [] ||
    (if s[0] == '\\' then
       |s| >= 2 &&
       (if s[1] == 'u' then |s| >= 6 && (forall i | 2 <= i < 6 :: HexDigit(s[i])) && JsonChars(s[6..])
        else s[1] in "\"\\/bfnrt" && JsonChars(s[2..]))
     else Unescaped(s[0]) && JsonChars(s[1..]))
  }

  /** The printed nickname is a string of RFC 8259 when it is plain text; without a
      backslash in it, quotes and control characters are exactly what breaks it. */
  lemma {:induction false} NicknameLiteralValid(n: string)
    requires '\\' !in n
    ensures JsonChars(n) <==> forall c | c in n :: ' ' <= c && c != '"'
  {
    if n != [] {
      NicknameLiteralValid(n[1..]);
      assert n[0] in n;
      assert forall c :: c in n <==> c == n[0] || c in n[1..];
    }
  }
}
