/** A reader of the player list text that knows nothing of how it is printed: it takes an
    array of objects apart and finds every value by its member's name. */
module SnapshotReader {
  import opened Types
  import opened SnapshotJson

  datatype Value = Number(number: int) | Text(text: string)

  function DigitRun(s: string): (n: nat)
    ensures n <= |s|
  {
    if s != [] && '0' <= s[0] <= '9' then 1 + DigitRun(s[1..]) else 0
  }

  function PlainRun(s: string): (n: nat)
    ensures n <= |s|
  {
    if s != [] && Unescaped(s[0]) then 1 + PlainRun(s[1..]) else 0
  }

  /** A string without escapes, and what follows it. */
  function ReadText(s: string): (r: Option<(string, string)>)
    ensures r.Some? ==> |r.value.1| < |s|
  {
    if s == [] || s[0] != '"' then None
    else
      var n := PlainRun(s[1..]);
      if n + 1 == |s| || s[n + 1] != '"' then None else Some((s[1..][..n], s[1..][n + 1..]))
  }

  /** An integer, and what follows it. */
  ghost function ReadNumber(s: string): (r: Option<(int, string)>)
    ensures r.Some? ==> |r.value.1| < |s|
  {
    var negative := s != [] && s[0] == '-';
    var d := if negative then s[1..] else s;
    var n := DigitRun(d);
    if n == 0 then None
    else Some((if negative then -DigitsValue(d[..n]) else DigitsValue(d[..n]), d[n..]))
  }

  /** The number a text stands for, if it is one and nothing else. */
  ghost function NumberIn(s: string): Option<int> {
    var r := ReadNumber(s);
    if r.Some? && r.value.1 == [] then Some(r.value.0) else None
  }

  ghost function ReadValue(s: string): (r: Option<(Value, string)>)
    ensures r.Some? ==> |r.value.1| < |s|
  {
    if s != [] && s[0] == '"' then
      var t := ReadText(s);
      if t.Some? then Some((Text(t.value.0), t.value.1)) else None
    else
      var n := ReadNumber(s);
      if n.Some? then Some((Number(n.value.0), n.value.1)) else None
  }

  /** A member, and what follows it. */
  ghost function ReadMember(s: string): (r: Option<(string, Value, string)>)
    ensures r.Some? ==> |r.value.2| < |s|
  {
    var name := ReadText(s);
    if name == None || name.value.1 == [] || name.value.1[0] != ':' then None
    else
      var v := ReadValue(name.value.1[1..]);
      if v == None then None else Some((name.value.0, v.value.0, v.value.1))
  }

  /** The members up to the closing brace; of members with one name the last counts. */
  ghost function ReadMembers(s: string): (r: Option<(map<string, Value>, string)>)
    ensures r.Some? ==> |r.value.1| < |s|
    decreases |s|
  {
    var m := ReadMember(s);
    if m == None || m.value.2 == [] then None
    else if m.value.2[0] == '}' then Some((map[m.value.0 := m.value.1], m.value.2[1..]))
    else if m.value.2[0] == ',' then
      var more := ReadMembers(m.value.2[1..]);
      if more == None then None else Some((map[m.value.0 := m.value.1] + more.value.0, more.value.1))
    else None
  }

  ghost function ReadObject(s: string): (r: Option<(map<string, Value>, string)>)
    ensures r.Some? ==> |r.value.1| < |s|
  {
    if s == [] || s[0] != '{' then None
    else if |s| > 1 && s[1] == '}' then Some((map[], s[2..]))
    else ReadMembers(s[1..])
  }

  /** The objects up to the closing bracket, which ends the text. */
  ghost function ReadObjects(s: string): Option<seq<map<string, Value>>>
    decreases |s|
  {
    var o := ReadObject(s);
    if o == None then None
    else if o.value.1 == "]" then Some([o.value.0])
    else if o.value.1 != [] && o.value.1[0] == ',' then
      var more := ReadObjects(o.value.1[1..]);
      if more == None then None else Some([o.value.0] + more.value)
    else None
  }

  ghost function ReadArray(s: string): Option<seq<map<string, Value>>> {
    if s == "[]" then Some([]) else if s != [] && s[0] == '[' then ReadObjects(s[1..]) else None
  }

  predicate IsUint32(m: map<string, Value>, name: string) {
    name in m && m[name].Number? && 0 <= m[name].number < 0x1_0000_0000
  }

  predicate IsInt32(m: map<string, Value>, name: string) {
    name in m && m[name].Number? && -0x8000_0000 <= m[name].number < 0x8000_0000
  }

  function AsRow(m: map<string, Value>): Option<Row> {
    if IsUint32(m, "uid") && "nickname" in m && m["nickname"].Text? && IsInt32(m, "character_id")
    then Some(Row(m["uid"].number, m["nickname"].text, m["character_id"].number)) else None
  }

  function AsRows(ms: seq<map<string, Value>>): Option<seq<Row>> {
    if ms == [] then Some([])
    else
      var row, rest := AsRow(ms[0]), AsRows(ms[1..]);
      if row == None || rest == None then None else Some([row.value] + rest.value)
  }

  /** The players a snapshot text lists. */
  ghost function ReadSnapshot(s: string): Option<seq<Row>> {
    var ms := ReadArray(s);
    if ms == None then None else AsRows(ms.value)
  }

  // ---- Reading what was printed ----

  predicate Plain(s: string) {
    forall c | c in s :: Unescaped(c)
  }

  lemma {:induction false} PlainRunOf(n: string, rest: string)
    requires Plain(n) && (rest == [] || !Unescaped(rest[0]))
    ensures PlainRun(n + rest) == |n|
  {
    if n == [] {
      assert n + rest == rest;
    } else {
      assert (n + rest)[1..] == n[1..] + rest && (n + rest)[0] in n;
      PlainRunOf(n[1..], rest);
    }
  }

  lemma {:induction false} DigitRunOf(n: string, rest: string)
    requires (forall c | c in n :: '0' <= c <= '9') && (rest == [] || !('0' <= rest[0] <= '9'))
    ensures DigitRun(n + rest) == |n|
  {
    if n == [] {
      assert n + rest == rest;
    } else {
      assert (n + rest)[1..] == n[1..] + rest && (n + rest)[0] in n;
      assert forall c | c in n[1..] :: c in n;
      DigitRunOf(n[1..], rest);
    }
  }

  lemma TextReadsBack(n: string, rest: string)
    requires Plain(n)
    ensures ReadText("\"" + (n + ("\"" + rest))) == Some((n, rest))
  {
    var t := n + ("\"" + rest);
    var s := "\"" + t;
    assert s[1..] == t;
    PlainRunOf(n, "\"" + rest);
    assert t[|n|] == '"' && t[..|n|] == n && t[|n| + 1..] == rest;
  }

  lemma NumberReadsBack(i: int, rest: string)
    requires rest == [] || !('0' <= rest[0] <= '9')
    ensures ReadNumber(Decimal(i) + rest) == Some((i, rest))
  {
    var digits := Digits(if i < 0 then -i else i);
    DigitsAreDigits(if i < 0 then -i else i);
    DigitRunOf(digits, rest);
    assert (digits + rest)[..|digits|] == digits && (digits + rest)[|digits|..] == rest;
    assert digits[0] in digits && (digits + rest)[0] == digits[0];
    if i < 0 {
      assert (Decimal(i) + rest)[1..] == digits + rest;
    }
    hide DigitsValue, Digits, DigitRun;
  }

  /** The decimal text of a number is read as that number. */
  lemma DecimalReadsBack(i: int)
    ensures NumberIn(Decimal(i)) == Some(i)
  {
    NumberReadsBack(i, "");
    assert Decimal(i) + "" == Decimal(i);
  }

  lemma NumberMember(name: string, i: int, rest: string)
    requires Plain(name) && rest != [] && !('0' <= rest[0] <= '9')
    ensures ReadMember("\"" + (name + ("\"" + (":" + (Decimal(i) + rest))))) == Some((name, Number(i), rest))
  {
    hide ReadText, ReadNumber, Decimal, Plain;
    var v := Decimal(i) + rest;
    TextReadsBack(name, ":" + v);
    NumberReadsBack(i, rest);
    NotAQuote(i, rest);
    assert (":" + v)[1..] == v;
  }

  lemma NotAQuote(i: int, rest: string)
    ensures Decimal(i) + rest != [] && (Decimal(i) + rest)[0] != '"'
  {
    DigitsAreDigits(if i < 0 then -i else i);
    DecimalHasNo(i, '"');
    assert Decimal(i)[0] in Decimal(i);
  }

  lemma TextMember(name: string, n: string, rest: string)
    requires Plain(name) && Plain(n)
    ensures ReadMember("\"" + (name + ("\"" + (":" + ("\"" + (n + ("\"" + rest))))))) == Some((name, Text(n), rest))
  {
    hide ReadText, ReadNumber, Plain;
    var v := "\"" + (n + ("\"" + rest));
    TextReadsBack(name, ":" + v);
    TextReadsBack(n, rest);
    assert (":" + v)[1..] == v && v[0] == '"';
  }

  function Members(p: Row): map<string, Value> {
    map["uid" := Number(p.uid), "nickname" := Text(p.nickname), "character_id" := Number(p.characterId)]
  }

  /** The printed entry, member by member. */
  lemma EntryByMembers(p: Row, rest: string)
    ensures Entry(p) + rest ==
      "{" + ("\"" + ("uid" + ("\"" + (":" + (Decimal(p.uid) + ("," +
        ("\"" + ("nickname" + ("\"" + (":" + ("\"" + (p.nickname + ("\"" + ("," +
          ("\"" + ("character_id" + ("\"" + (":" + (Decimal(p.characterId) + ("}" + rest))))))))))))))))))))
  {
    var k1, k2, k3 := "{\"uid\":", "\"nickname\":\"", ",\"character_id\":";
    FormatUnrolls(p, rest, k1, k2, k3);
    assert Entry(p) == Format(p, k1, k2, k3);
    hide Entry, Format, Decimal;
    var x3 := Decimal(p.characterId) + ("}" + rest);
    LabelThree(x3);
    var x2 := p.nickname + ("\"" + (k3 + x3));
    LabelTwo(x2);
    var x1 := Decimal(p.uid) + ("," + (k2 + x2));
    LabelOne(x1);
  }

  lemma LabelOne(x: string)
    ensures "{\"uid\":" + x == "{" + ("\"" + ("uid" + ("\"" + (":" + x))))
  {
  }

  lemma LabelTwo(x: string)
    ensures "\"nickname\":\"" + x == "\"" + ("nickname" + ("\"" + (":" + ("\"" + x))))
  {
  }

  lemma LabelThree(x: string)
    ensures ",\"character_id\":" + x == "," + ("\"" + ("character_id" + ("\"" + (":" + x))))
  {
  }

  lemma OneMember(s: string, name: string, v: Value, rest: string)
    requires ReadMember(s) == Some((name, v, "}" + rest))
    ensures ReadMembers(s) == Some((map[name := v], rest))
  {
    hide ReadMember;
    assert ("}" + rest)[1..] == rest && ("}" + rest)[0] == '}';
  }

  lemma OneMoreMember(s: string, name: string, v: Value, s': string, m: map<string, Value>, rest: string)
    requires ReadMember(s) == Some((name, v, "," + s')) && ReadMembers(s') == Some((m, rest))
    ensures ReadMembers(s) == Some((map[name := v] + m, rest))
  {
    hide ReadMember;
    assert ("," + s')[1..] == s' && ("," + s')[0] == ',';
  }

  lemma EntryReadsBack(p: Row, rest: string)
    requires Plain(p.nickname)
    ensures ReadObject(Entry(p) + rest) == Some((Members(p), rest))
  {
    EntryByMembers(p, rest);
    hide ReadMember, ReadMembers, Entry, Decimal, Plain;
    assert Plain("uid") && Plain("nickname") && Plain("character_id") by {
      PlainNames();
    }
    var s3 := "\"" + ("character_id" + ("\"" + (":" + (Decimal(p.characterId) + ("}" + rest)))));
    NumberMember("character_id", p.characterId, "}" + rest);
    OneMember(s3, "character_id", Number(p.characterId), rest);
    var s2 := "\"" + ("nickname" + ("\"" + (":" + ("\"" + (p.nickname + ("\"" + ("," + s3)))))));
    TextMember("nickname", p.nickname, "," + s3);
    OneMoreMember(s2, "nickname", Text(p.nickname), s3, map["character_id" := Number(p.characterId)], rest);
    var s1 := "\"" + ("uid" + ("\"" + (":" + (Decimal(p.uid) + ("," + s2)))));
    NumberMember("uid", p.uid, "," + s2);
    OneMoreMember(s1, "uid", Number(p.uid), s2,
      map["nickname" := Text(p.nickname)] + map["character_id" := Number(p.characterId)], rest);
    assert Entry(p) + rest == "{" + s1;
    assert ("{" + s1)[1..] == s1 && s1[0] == '"';
    assert map["uid" := Number(p.uid)] +
      (map["nickname" := Text(p.nickname)] + map["character_id" := Number(p.characterId)]) == Members(p);
  }

  lemma PlainNames()
    ensures Plain("uid") && Plain("nickname") && Plain("character_id")
  {
  }

  lemma MembersAreRow(p: Row)
    ensures AsRow(Members(p)) == Some(p)
  {
  }

  lemma LastObject(p: Row)
    requires Plain(p.nickname)
    ensures ReadObjects(Entry(p) + "]") == Some([Members(p)])
  {
    EntryReadsBack(p, "]");
    hide ReadObject, Entry;
  }

  lemma OneMoreObject(p: Row, s: string, ms: seq<map<string, Value>>)
    requires Plain(p.nickname) && ReadObjects(s) == Some(ms)
    ensures ReadObjects(Entry(p) + ("," + s)) == Some([Members(p)] + ms)
  {
    EntryReadsBack(p, "," + s);
    hide ReadObject, Entry;
    assert ("," + s)[1..] == s && ("," + s)[0] == ',' && "," + s != "]";
  }

  lemma {:induction false} ItemsReadBack(rows: seq<Row>)
    requires rows != [] && forall r | r in rows :: Plain(r.nickname)
    ensures var ms := ReadObjects(Items(rows, true) + "]");
      ms.Some? && AsRows(ms.value) == Some(rows)
  {
    var p, rest := rows[0], rows[1..];
    hide ReadObjects, Entry, Plain;
    MembersAreRow(p);
    ItemsUnroll(rows, true);
    Empty(Entry(p) + (Items(rest, false) + "]"));
    if rest == [] {
      assert Items(rest, false) + "]" == "]";
      LastObject(p);
      OneRow(p);
      assert rows == [p];
    } else {
      ItemsReadBack(rest);
      ItemsUnroll(rest, true);
      ItemsUnroll(rest, false);
      Empty(Entry(rest[0]) + (Items(rest[1..], false) + "]"));
      var s := Items(rest, true) + "]";
      assert Items(rest, false) + "]" == "," + s;
      var ms := ReadObjects(s).value;
      OneMoreObject(p, s, ms);
      OneMoreRow(p, ms, rest);
      assert rows == [p] + rest;
    }
  }

  lemma Empty(a: string)
    ensures "" + a == a
  {
  }

  lemma OneRow(p: Row)
    ensures AsRows([Members(p)]) == Some([p])
  {
    OneMoreRow(p, [], []);
    assert [Members(p)] + [] == [Members(p)] && [p] + [] == [p];
  }

  lemma OneMoreRow(p: Row, ms: seq<map<string, Value>>, rows: seq<Row>)
    requires AsRows(ms) == Some(rows)
    ensures AsRows([Members(p)] + ms) == Some([p] + rows)
  {
    MembersAreRow(p);
    hide Members, AsRow;
    assert ([Members(p)] + ms)[1..] == ms;
  }

  /** Over plain nicknames, the printed list is read back as exactly the list, each value
      under its own name. */
  lemma SnapshotReadsBack(rows: seq<Row>)
    requires forall r | r in rows :: Plain(r.nickname)
    ensures ReadSnapshot(Snapshot(rows)) == Some(rows)
  {
    if rows == [] {
      assert Snapshot(rows) == "[]";
      assert ReadArray("[]") == Some([]) && AsRows([]) == Some([]);
    } else {
      ItemsReadBack(rows);
      Associative("[", Items(rows, true), "]");
      var s := Items(rows, true) + "]";
      ItemsUnroll(rows, true);
      NonEmpty(rows[0], Items(rows[1..], false) + "]");
      assert |s| >= 2;
      hide ReadObjects, Items, Entry;
      ArrayOf(s);
      assert Snapshot(rows) == "[" + s;
    }
  }

  lemma ArrayOf(s: string)
    requires |s| >= 2
    ensures ReadArray("[" + s) == ReadObjects(s)
  {
    hide ReadObjects;
    assert ("[" + s)[1..] == s;
  }

  lemma NonEmpty(p: Row, rest: string)
    ensures |"" + (Entry(p) + rest)| >= 2
  {
    EntryByMembers(p, rest);
    Empty(Entry(p) + rest);
    hide Entry, Decimal;
    var x := "uid" + ("\"" + (":" + (Decimal(p.uid) + ("," +
      ("\"" + ("nickname" + ("\"" + (":" + ("\"" + (p.nickname + ("\"" + ("," +
        ("\"" + ("character_id" + ("\"" + (":" + (Decimal(p.characterId) + ("}" + rest))))))))))))))))));
    Two(x);
  }

  lemma Two(x: string)
    ensures |"{" + ("\"" + x)| >= 2
  {
  }
}
