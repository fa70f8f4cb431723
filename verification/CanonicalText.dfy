/** The text of the canonical form, read back by the rules of JSON: how strings are escaped (section 7 of RFC 8259),
    what numbers mean, and in which order keys stand. */
module CanonicalText {
  import opened Canonical

  // ---------- Strings ----------

  function HexValue(c: char): int {
    if '0' <= c <= '9' then c as int - '0' as int
    else if 'a' <= c <= 'f' then c as int - 'a' as int + 10
    else -1
  }

  /** The character after a backslash, for the escapes of one letter. */
  function Letter(c: char): char {
    match c
    case 'b' => 8 as char
    case 't' => '\t'
    case 'n' => '\n'
    case 'f' => 12 as char
    case 'r' => '\r'
    case _ => c
  }

  /** A JSON reader of what stands between two quotes. */
  function Unescape(s: string): string {
    if s == "" then ""
    else if s[0] != '\\' then [s[0]] + Unescape(s[1..])
    else if |s| >= 6 && s[1] == 'u' && s[2] == '0' && s[3] == '0' && 0 <= HexValue(s[4]) && 0 <= HexValue(s[5])
    then [(HexValue(s[4]) * 16 + HexValue(s[5])) as char] + Unescape(s[6..])
    else if |s| >= 2 then [Letter(s[1])] + Unescape(s[2..])
    else s
  }

  lemma HexReadBack(n: nat)
    requires n < 16
    ensures HexValue(HexDigit(n)) == n
  {
    var d := "0123456789abcdef";
    assert d[0] == '0' && d[1] == '1' && d[2] == '2' && d[3] == '3' && d[4] == '4' && d[5] == '5' && d[6] == '6' &&
           d[7] == '7' && d[8] == '8' && d[9] == '9' && d[10] == 'a' && d[11] == 'b' && d[12] == 'c' && d[13] == 'd' &&
           d[14] == 'e' && d[15] == 'f';
  }

  lemma ControlReadBack(c: char, rest: string)
    requires c as int < 32 && c as int !in {8, 9, 10, 12, 13}
    ensures Unescape(EscapeChar(c) + rest) == [c] + Unescape(rest)
  {
    var t := EscapeChar(c) + rest;
    var hi, lo := c as int / 16, c as int % 16;
    assert EscapeChar(c) == ['\\', 'u', '0', '0', HexDigit(hi), HexDigit(lo)];
    HexReadBack(hi);
    HexReadBack(lo);
    assert t[0] == '\\' && t[1] == 'u' && t[2] == '0' && t[3] == '0' && t[4] == HexDigit(hi) && t[5] == HexDigit(lo);
    assert t[6..] == rest;
    assert hi * 16 + lo == c as int;
    hide HexValue, HexDigit, EscapeChar;
  }

  lemma CharReadBack(c: char, rest: string)
    ensures Unescape(EscapeChar(c) + rest) == [c] + Unescape(rest)
  {
    var t := EscapeChar(c) + rest;
    if c as int < 32 && c as int !in {8, 9, 10, 12, 13} {
      ControlReadBack(c, rest);
    } else if |EscapeChar(c)| == 2 {
      assert t[0] == '\\' && t[1] == EscapeChar(c)[1] != 'u' && t[2..] == rest;
      assert Letter(t[1]) == c;
    } else {
      assert t[0] == c != '\\' && t[1..] == rest;
    }
  }

  /** Main result: a JSON reader gets every string back. */
  lemma {:induction false} StringsReadBack(s: string)
    ensures Unescape(Escape(s)) == s
  {
    if s != "" {
      CharReadBack(s[0], Escape(s[1..]));
      StringsReadBack(s[1..]);
      hide EscapeChar, Unescape;
      assert s == [s[0]] + s[1..];
    }
  }

  // ---------- Numbers ----------

  /** The number that decimal digits stand for. */
  function Decimal(s: string): int {
    if s == "" then 0 else 10 * Decimal(s[..|s| - 1]) + HexValue(s[|s| - 1])
  }

  function ReadInt(s: string): int {
    if s != "" && s[0] == '-' then -Decimal(s[1..]) else Decimal(s)
  }

  lemma {:induction false} NaturalsReadBack(n: nat)
    ensures Decimal(NatText(n)) == n
    ensures NatText(n) != "" && NatText(n)[0] != '-' && (n > 0 ==> NatText(n)[0] != '0')
  {
    var t := NatText(n);
    HexReadBack(n % 10);
    if n < 10 {
      assert t[..|t| - 1] == "";
      assert t[0] == HexDigit(n);
    } else {
      NaturalsReadBack(n / 10);
      assert t[..|t| - 1] == NatText(n / 10);
      assert t[0] == NatText(n / 10)[0];
    }
  }

  /** Main result: so with every integer, and no text starts with a superfluous zero. */
  lemma IntegersReadBack(n: int)
    ensures ReadInt(IntText(n)) == n
    ensures n != 0 ==> IntText(n)[if n < 0 then 1 else 0] != '0'
  {
    NaturalsReadBack(if n < 0 then -n else n);
    hide NatText;
    if n < 0 { assert IntText(n)[1..] == NatText(-n); }
  }

  // ---------- Keys ----------

  ghost predicate LessAt(a: string, b: string, i: nat) {
    i < |a| && i < |b| && a[..i] == b[..i] && a[i] < b[i]
  }

  /** `a` begins `b`, or has the smaller character where they first differ. */
  ghost predicate Before(a: string, b: string) {
    a <= b || exists i: nat :: LessAt(a, b, i)
  }

  lemma {:induction false} KeyOrder(a: string, b: string)
    ensures KeyLeq(a, b) <==> Before(a, b)
  {
    if a != "" && b != "" && a[0] == b[0] {
      KeyOrder(a[1..], b[1..]);
      BeforeTail(a, b);
    } else if a != "" && b != "" && a[0] < b[0] {
      assert LessAt(a, b, 0);
    }
  }

  lemma LessAtTail(a: string, b: string, i: nat)
    requires a != "" && b != "" && a[0] == b[0]
    ensures LessAt(a, b, i + 1) <==> LessAt(a[1..], b[1..], i)
    ensures !LessAt(a, b, 0)
  {
    if i < |a[1..]| && i < |b[1..]| {
      assert a[..i + 1] == [a[0]] + a[1..][..i] && b[..i + 1] == [b[0]] + b[1..][..i];
      assert a[1..][..i] == a[..i + 1][1..] && b[1..][..i] == b[..i + 1][1..];
    }
  }

  lemma BeforeTail(a: string, b: string)
    requires a != "" && b != "" && a[0] == b[0]
    ensures Before(a, b) <==> Before(a[1..], b[1..])
  {
    assert a == [a[0]] + a[1..] && b == [b[0]] + b[1..];
    assert a <= b <==> a[1..] <= b[1..];
    if exists i: nat :: LessAt(a, b, i) {
      var i: nat :| LessAt(a, b, i);
      LessAtTail(a, b, 0);
      LessAtTail(a, b, i - 1);
      assert LessAt(a[1..], b[1..], i - 1);
    }
    if exists i: nat :: LessAt(a[1..], b[1..], i) {
      var i: nat :| LessAt(a[1..], b[1..], i);
      LessAtTail(a, b, i);
      assert LessAt(a, b, i + 1);
    }
    hide LessAt;
  }

  /** Main result: the entries of an object are printed by ascending key. */
  lemma KeysAscend(es: seq<Entry>, i: nat, j: nat)
    requires i < j < |es|
    ensures |SortByKey(es)| == |es| && Before(SortByKey(es)[i].key, SortByKey(es)[j].key)
  {
    SortSorts(es);
    assert |SortByKey(es)| == |multiset(SortByKey(es))| == |multiset(es)| == |es|;
    hide SortByKey;
    KeyOrder(SortByKey(es)[i].key, SortByKey(es)[j].key);
  }

  // ---------- A whole text ----------

  lemma Texts()
    ensures Stringify(Null) == "null" && Stringify(Bool(true)) == "true" && Stringify(Bool(false)) == "false"
    ensures Stringify(Num(-12)) == "-12" && Stringify(Str("x")) == "\"x\""
  {
    assert NatText(12) == NatText(1) + [HexDigit(2)] == "12";
    assert Escape("x") == EscapeChar('x') + Escape("");
  }

  /** A list keeps its order, an object is printed by key, and nothing stands in between but the marks of JSON. */
  lemma SampleText()
    ensures SampleMembers() == [Member("b", Arr([Null, Num(-12)])), Member("a", Str("x"))]
    ensures Stringify(Obj(SampleMembers())) == "{\"a\":\"x\",\"b\":[null,-12]}"
  {
    hide NatText, Escape, Join, SortByKey, Quote;
    var eb, ea := Entry("b", "[null,-12]"), Entry("a", "\"x\"");
    SampleEntries();
    StringifyObj(SampleMembers());
    hide Stringify, Entries;
    SortPair(eb, ea);
    SamplePairs(ea, eb);
    hide Render;
    JoinPair("\"a\":\"x\"", "\"b\":[null,-12]");
    SampleJoined();
  }

  function SampleMembers(): seq<Member> {
    [Member("b", Arr([Null, Num(-12)])), Member("a", Str("x"))]
  }

  lemma SampleEntries()
    ensures Entries(SampleMembers()) == [Entry("b", "[null,-12]"), Entry("a", "\"x\"")]
  {
    ListText();
    Texts();
    hide Stringify;
  }

  lemma SampleJoined()
    ensures "{" + ("\"a\":\"x\"" + "," + "\"b\":[null,-12]") + "}" == "{\"a\":\"x\",\"b\":[null,-12]}"
  {}

  lemma JoinPair(s: string, t: string)
    ensures Join([s, t]) == s + "," + t
  {
    assert [s, t][1..] == [t];
  }

  lemma ListText()
    ensures Stringify(Arr([Null, Num(-12)])) == "[null,-12]"
  {
    Texts();
    StringifyArr([Null, Num(-12)]);
    hide Stringify, NatText;
    assert ItemTexts([Null, Num(-12)]) == ["null", "-12"];
    JoinPair("null", "-12");
  }

  lemma SamplePairs(ea: Entry, eb: Entry)
    requires ea == Entry("a", "\"x\"") && eb == Entry("b", "[null,-12]")
    ensures Render([ea, eb]) == ["\"a\":\"x\"", "\"b\":[null,-12]"]
  {
    assert Escape("a") == EscapeChar('a') + Escape("") && Escape("b") == EscapeChar('b') + Escape("");
    assert Quote("a") == "\"a\"" && Quote("b") == "\"b\"";
    hide Quote;
    assert Render([ea, eb])[0] == "\"a\"" + ":" + "\"x\"" == "\"a\":\"x\"";
    assert Render([ea, eb])[1] == "\"b\"" + ":" + "[null,-12]" == "\"b\":[null,-12]";
  }

  lemma SortPair(eb: Entry, ea: Entry)
    requires eb.key == "b" && ea.key == "a"
    ensures SortByKey([eb, ea]) == [ea, eb]
  {
    assert [eb, ea][1..] == [ea] && [ea][1..] == [];
    assert SortByKey([ea]) == [ea];
    assert !KeyLeq("b", "a");
    assert SortByKey([eb, ea]) == Insert(eb, [ea]) == [ea] + Insert(eb, []);
  }
}
