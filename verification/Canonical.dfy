/** Deterministic JSON text: the recursive key-sorting serializer that `src/trace`, `src/proof`
    and `src/gateway` each carry a copy of, and the proof that its text stands for the value
    up to the order of object keys, and for nothing else. */
module Canonical {
  import opened Sequences

  /** JSON values as the serializer meets them; `Num` holds integers. */
  datatype Json =
    | Null
    | Bool(b: bool)
    | Num(n: int)
    | Str(s: string)
    | Arr(items: seq<Json>)
    | Obj(members: seq<Member>)

  /** One property of an object, in insertion order. */
  datatype Member = Member(key: string, value: Json)

  /** A property whose value has already been printed. */
  datatype Entry = Entry(key: string, text: string)

  ghost predicate DistinctKeys(ms: seq<Member>) {
    forall i, j :: 0 <= i < j < |ms| ==> ms[i].key != ms[j].key
  }

  function Keys(ms: seq<Member>): set<string> {
    set m | m in ms :: m.key
  }

  /** What every JavaScript object guarantees: one value per key, at every depth. */
  ghost predicate WellFormed(v: Json) {
    match v
    case Arr(items) => forall i :: 0 <= i < |items| ==> WellFormed(items[i])
    case Obj(ms) => DistinctKeys(ms) && forall i :: 0 <= i < |ms| ==> WellFormed(ms[i].value)
    case _ => true
  }

  /** The values differ at most in the order in which object keys were inserted. */
  ghost predicate SameUpToKeyOrder(a: Json, b: Json)
    decreases a
  {
    match a
    case Arr(xs) =>
      b.Arr? && |xs| == |b.items| &&
      forall i :: 0 <= i < |xs| ==> SameUpToKeyOrder(xs[i], b.items[i])
    case Obj(ms) =>
      b.Obj? &&
      Keys(ms) == Keys(b.members) &&
      forall i, j :: 0 <= i < |ms| && 0 <= j < |b.members| && ms[i].key == b.members[j].key ==>
        SameUpToKeyOrder(ms[i].value, b.members[j].value)
    case _ => a == b
  }

  // ---------- Printing ----------

  /** The order in which default string sorting compares two keys. */
  predicate KeyLeq(a: string, b: string) {
    a == "" || (b != "" && (a[0] < b[0] || (a[0] == b[0] && KeyLeq(a[1..], b[1..]))))
  }

  function HexDigit(n: nat): char
    requires n < 16
  {
    "0123456789abcdef"[n]
  }

  /** `JSON.stringify` on one character of a string. */
  function EscapeChar(c: char): string {
    if c == '\"' then "\\\""
    else if c == '\\' then "\\\\"
    else if c as int == 8 then "\\b"
    else if c as int == 9 then "\\t"
    else if c as int == 10 then "\\n"
    else if c as int == 12 then "\\f"
    else if c as int == 13 then "\\r"
    else if c as int < 32 then "\\u00" + [HexDigit(c as int / 16), HexDigit(c as int % 16)]
    else [c]
  }

  function Escape(s: string): string {
    if s == "" then "" else EscapeChar(s[0]) + Escape(s[1..])
  }

  function Quote(s: string): string {
    "\"" + Escape(s) + "\""
  }

  function NatText(n: nat): string {
    if n < 10 then [HexDigit(n)] else NatText(n / 10) + [HexDigit(n % 10)]
  }

  function IntText(n: int): string {
    if n < 0 then "-" + NatText(-n) else NatText(n)
  }

  function Join(ts: seq<string>): string {
    if |ts| == 0 then ""
    else if |ts| == 1 then ts[0]
    else ts[0] + "," + Join(ts[1..])
  }

  function Insert(e: Entry, es: seq<Entry>): seq<Entry> {
    if es == [] || KeyLeq(e.key, es[0].key) then [e] + es else [es[0]] + Insert(e, es[1..])
  }

  function SortByKey(es: seq<Entry>): seq<Entry> {
    if es == [] then [] else Insert(es[0], SortByKey(es[1..]))
  }

  function Render(es: seq<Entry>): seq<string> {
    seq(|es|, i requires 0 <= i < |es| => Quote(es[i].key) + ":" + es[i].text)
  }

  /** The serializer: arrays keep their order, object properties are printed by sorted key. */
  function Stringify(v: Json): string {
    match v
    case Null => "null"
    case Bool(b) => if b then "true" else "false"
    case Num(n) => IntText(n)
    case Str(s) => Quote(s)
    case Arr(items) => "[" + Join(seq(|items|, i requires 0 <= i < |items| => Stringify(items[i]))) + "]"
    case Obj(ms) =>
      "{" + Join(Render(SortByKey(seq(|ms|, i requires 0 <= i < |ms| =>
                                            Entry(ms[i].key, Stringify(ms[i].value)))))) + "}"
  }

  function ItemTexts(items: seq<Json>): seq<string> {
    seq(|items|, i requires 0 <= i < |items| => Stringify(items[i]))
  }

  function Entries(ms: seq<Member>): seq<Entry> {
    seq(|ms|, i requires 0 <= i < |ms| => Entry(ms[i].key, Stringify(ms[i].value)))
  }

  lemma StringifyArr(items: seq<Json>)
    ensures Stringify(Arr(items)) == "[" + Join(ItemTexts(items)) + "]"
  {
    assert ItemTexts(items) == seq(|items|, i requires 0 <= i < |items| => Stringify(items[i]));
  }

  lemma StringifyObj(ms: seq<Member>)
    ensures Stringify(Obj(ms)) == "{" + Join(Render(SortByKey(Entries(ms)))) + "}"
  {
    assert Entries(ms) == seq(|ms|, i requires 0 <= i < |ms| => Entry(ms[i].key, Stringify(ms[i].value)));
  }

  // ---------- Sorting ----------

  ghost predicate Sorted(es: seq<Entry>) {
    forall i, j :: 0 <= i < j < |es| ==> KeyLeq(es[i].key, es[j].key)
  }

  ghost predicate DistinctEntries(es: seq<Entry>) {
    forall i, j :: 0 <= i < j < |es| ==> es[i].key != es[j].key
  }

  lemma {:induction false} KeyLeqTotal(a: string, b: string)
    ensures KeyLeq(a, b) || KeyLeq(b, a)
    ensures KeyLeq(a, b) && KeyLeq(b, a) ==> a == b
  {
    if a != "" && b != "" && a[0] == b[0] {
      KeyLeqTotal(a[1..], b[1..]);
      assert a == [a[0]] + a[1..] && b == [b[0]] + b[1..];
    }
  }

  lemma {:induction false} KeyLeqTransitive(a: string, b: string, c: string)
    requires KeyLeq(a, b) && KeyLeq(b, c)
    ensures KeyLeq(a, c)
  {
    if a != "" && a[0] == b[0] == c[0] {
      KeyLeqTransitive(a[1..], b[1..], c[1..]);
    }
  }

  lemma {:induction false} InsertSorts(e: Entry, es: seq<Entry>)
    requires Sorted(es)
    ensures Sorted(Insert(e, es))
    ensures multiset(Insert(e, es)) == multiset{e} + multiset(es)
  {
    hide KeyLeq;
    if es == [] {
    } else if KeyLeq(e.key, es[0].key) {
      forall j | 0 <= j < |es| ensures KeyLeq(e.key, es[j].key) {
        if j > 0 { KeyLeqTransitive(e.key, es[0].key, es[j].key); }
      }
    } else {
      InsertSorts(e, es[1..]);
      KeyLeqTotal(e.key, es[0].key);
      assert es == [es[0]] + es[1..];
      var tail := Insert(e, es[1..]);
      forall j | 0 <= j < |tail| ensures KeyLeq(es[0].key, tail[j].key) {
        assert tail[j] in multiset(tail);
        assert tail[j] == e || tail[j] in es[1..];
      }
    }
  }

  lemma {:induction false} SortSorts(es: seq<Entry>)
    ensures Sorted(SortByKey(es))
    ensures multiset(SortByKey(es)) == multiset(es)
  {
    if es != [] {
      SortSorts(es[1..]);
      InsertSorts(es[0], SortByKey(es[1..]));
      assert es == [es[0]] + es[1..];
    }
  }

  lemma SortKeepsEntries(es: seq<Entry>)
    ensures Sorted(SortByKey(es))
    ensures |SortByKey(es)| == |es|
    ensures forall e :: e in SortByKey(es) <==> e in es
  {
    SortSorts(es);
    assert |multiset(SortByKey(es))| == |multiset(es)|;
    forall e ensures e in SortByKey(es) <==> e in es {
      assert e in multiset(SortByKey(es)) <==> e in multiset(es);
    }
  }

  /** No two different entries share a key, so a sorted listing of them is unique. */
  lemma {:induction false} SortedListingUnique(xs: seq<Entry>, ys: seq<Entry>)
    requires Sorted(xs) && Sorted(ys)
    requires DistinctEntries(xs) && DistinctEntries(ys)
    requires forall e :: e in xs <==> e in ys
    ensures xs == ys
  {
    assert ys == [] || ys[0] in ys;
    if xs != [] {
      assert xs[0] in ys && ys[0] in xs;
      var i :| 0 <= i < |ys| && ys[i] == xs[0];
      var j :| 0 <= j < |xs| && xs[j] == ys[0];
      KeyLeqTotal(xs[0].key, ys[0].key);
      assert xs[0] == ys[0];
      forall e ensures e in xs[1..] <==> e in ys[1..] {
        assert xs == [xs[0]] + xs[1..] && ys == [ys[0]] + ys[1..];
        if e in xs[1..] { assert e in ys; assert e != xs[0]; }
        if e in ys[1..] { assert e in xs; assert e != ys[0]; }
      }
      SortedListingUnique(xs[1..], ys[1..]);
    }
  }

  // ---------- Unique readability ----------

  /** Text that may follow a printed value inside a longer text. */
  ghost predicate Delimited(x: string) {
    x == "" || x[0] == ',' || x[0] == ']' || x[0] == '}'
  }

  /** One text, read as `t` or as `u` with a delimited rest. */
  ghost predicate TwoReadings(t: string, x: string, u: string, y: string) {
    Delimited(x) && Delimited(y) && t + x == u + y
  }

  /** Whatever delimited text follows, `t` and `u` can be told apart. */
  ghost predicate Separable(t: string, u: string) {
    forall x, y :: TwoReadings(t, x, u, y) ==> t == u
  }

  ghost predicate IsToken(t: string) {
    t != "" && !Delimited(t)
  }

  ghost predicate AllDigits(t: string) {
    forall i :: 0 <= i < |t| ==> '0' <= t[i] <= '9'
  }

  lemma CancelPrefix(t: string, x: string, y: string)
    requires t + x == t + y
    ensures x == y
  {
    assert x == (t + x)[|t|..] && y == (t + y)[|t|..];
  }

  lemma EscapeCharReadable(c: char, d: char, x: string, y: string)
    requires EscapeChar(c) + x == EscapeChar(d) + y
    ensures c == d && x == y
  {
    var s, t := EscapeChar(c), EscapeChar(d);
    assert s[0] == (s + x)[0] == (t + y)[0] == t[0];
    if s[0] == '\\' {
      assert s[1] == (s + x)[1] == (t + y)[1] == t[1];
      if s[1] == 'u' {
        assert s[4] == (s + x)[4] == (t + y)[4] == t[4];
        assert s[5] == (s + x)[5] == (t + y)[5] == t[5];
        HexDigitInjective(c as int / 16, d as int / 16);
        HexDigitInjective(c as int % 16, d as int % 16);
      }
    }
    assert c == d;
    CancelPrefix(s, x, y);
  }

  lemma HexDigitInjective(m: nat, n: nat)
    requires m < 16 && n < 16 && HexDigit(m) == HexDigit(n)
    ensures m == n
  {
    var digits := "0123456789abcdef";
    assert forall i, j :: 0 <= i < j < 16 ==> digits[i] != digits[j];
  }

  lemma EscapeCharNeverQuote(c: char)
    ensures |EscapeChar(c)| > 0 && EscapeChar(c)[0] != '\"'
  {}

  lemma EscapeStep(s: string, x: string)
    requires s != ""
    ensures Escape(s) + "\"" + x == EscapeChar(s[0]) + (Escape(s[1..]) + "\"" + x)
    ensures (Escape(s) + "\"" + x)[0] != '\"'
  {
    EscapeCharNeverQuote(s[0]);
    var p, q := EscapeChar(s[0]), Escape(s[1..]);
    assert (p + q) + "\"" + x == p + (q + "\"" + x);
  }

  lemma {:induction false} EscapeReadable(s: string, t: string, x: string, y: string)
    requires Escape(s) + "\"" + x == Escape(t) + "\"" + y
    ensures s == t && x == y
  {
    if s != "" { EscapeStep(s, x); }
    if t != "" { EscapeStep(t, y); }
    if s == "" || t == "" {
      assert (Escape("") + "\"" + x)[0] == (Escape("") + "\"" + y)[0] == '\"';
      assert s == t;
      CancelPrefix(Escape("") + "\"", x, y);
    } else {
      EscapeCharReadable(s[0], t[0], Escape(s[1..]) + "\"" + x, Escape(t[1..]) + "\"" + y);
      EscapeReadable(s[1..], t[1..], x, y);
      assert s == [s[0]] + s[1..] && t == [t[0]] + t[1..];
    }
  }

  lemma QuoteReadable(s: string, t: string, x: string, y: string)
    requires Quote(s) + x == Quote(t) + y
    ensures s == t && x == y
  {
    hide Escape;
    Unbracket('\"', Escape(s), '\"', x);
    Unbracket('\"', Escape(t), '\"', y);
    CancelPrefix("\"", Escape(s) + "\"" + x, Escape(t) + "\"" + y);
    EscapeReadable(s, t, x, y);
  }

  lemma {:induction false} NatTextDigits(n: nat)
    ensures NatText(n) != "" && AllDigits(NatText(n))
  {
    if n >= 10 { NatTextDigits(n / 10); }
  }

  lemma {:induction false} NatTextInjective(m: nat, n: nat)
    requires NatText(m) == NatText(n)
    ensures m == n
  {
    NatTextDigits(m / 10);
    NatTextDigits(n / 10);
    var s, t := NatText(m), NatText(n);
    assert s[|s| - 1] == t[|t| - 1];
    if m < 10 || n < 10 {
      assert |s| == 1;
      HexDigitInjective(m, n);
    } else {
      assert NatText(m / 10) == s[..|s| - 1] == t[..|t| - 1] == NatText(n / 10);
      NatTextInjective(m / 10, n / 10);
      HexDigitInjective(m % 10, n % 10);
    }
  }

  lemma IntTextShape(n: int)
    ensures IntText(n) != ""
    ensures IntText(n)[0] == '-' || '0' <= IntText(n)[0] <= '9'
    ensures IntText(n)[0] == '-' <==> n < 0
    ensures AllDigits(IntText(n)[1..])
  {
    NatTextDigits(if n < 0 then -n else n);
  }

  lemma IntTextInjective(m: int, n: int)
    requires IntText(m) == IntText(n)
    ensures m == n
  {
    IntTextShape(m);
    IntTextShape(n);
    if m < 0 {
      assert NatText(-m) == IntText(m)[1..] == IntText(n)[1..] == NatText(-n);
      NatTextInjective(-m, -n);
    } else {
      NatTextInjective(m, n);
    }
  }

  lemma DigitsThenDelimiter(t: string, x: string, u: string, y: string)
    requires t != "" && u != "" && AllDigits(u[1..]) && Delimited(x) && t + x == u + y
    ensures |u| <= |t|
  {
    assert forall k :: 1 <= k < |u| ==> '0' <= u[1..][k - 1] <= '9' && u[k] == (u + y)[k];
    assert x != "" ==> (t + x)[|t|] == x[0];
  }

  lemma IntSeparable(m: int, n: int)
    ensures Separable(IntText(m), IntText(n))
  {
    var t, u := IntText(m), IntText(n);
    IntTextShape(m);
    IntTextShape(n);
    forall x, y | TwoReadings(t, x, u, y) ensures t == u {
      DigitsThenDelimiter(t, x, u, y);
      DigitsThenDelimiter(u, y, t, x);
      assert t == (t + x)[..|t|] && u == (u + y)[..|u|];
    }
  }

  lemma QuoteSeparable(s: string, t: string)
    ensures Separable(Quote(s), Quote(t))
  {
    forall x, y | TwoReadings(Quote(s), x, Quote(t), y) ensures Quote(s) == Quote(t) {
      QuoteReadable(s, t, x, y);
    }
  }

  lemma Regroup(q: string, t: string, x: string)
    ensures (q + ":" + t) + x == q + (":" + (t + x))
  {}

  lemma RenderedSeparable(k: string, t: string, l: string, u: string)
    requires Separable(t, u)
    ensures Separable(Quote(k) + ":" + t, Quote(l) + ":" + u)
  {
    hide Quote;
    forall x, y | TwoReadings(Quote(k) + ":" + t, x, Quote(l) + ":" + u, y)
      ensures Quote(k) + ":" + t == Quote(l) + ":" + u
    {
      Regroup(Quote(k), t, x);
      Regroup(Quote(l), u, y);
      QuoteReadable(k, l, ":" + (t + x), ":" + (u + y));
      CancelPrefix(":", t + x, u + y);
      assert TwoReadings(t, x, u, y);
    }
  }

  /** A bracketed list of pairwise separable tokens can be read back in one way only. */
  lemma {:induction false} JoinReadable(ts: seq<string>, us: seq<string>, close: char, x: string, y: string)
    requires close == ']' || close == '}'
    requires forall i :: 0 <= i < |ts| ==> IsToken(ts[i])
    requires forall j :: 0 <= j < |us| ==> IsToken(us[j])
    requires forall i, j :: 0 <= i < |ts| && 0 <= j < |us| ==> Separable(ts[i], us[j])
    requires Join(ts) + [close] + x == Join(us) + [close] + y
    ensures ts == us && x == y
  {
    hide Join;
    JoinHead(ts, close, x);
    JoinHead(us, close, y);
    if ts == [] || us == [] {
      assert ts == us;
      CancelPrefix(Join(ts) + [close], x, y);
    } else {
      FirstTokensEqual(ts, us, close, x, y);
      if |ts| > 1 {
        JoinReadable(ts[1..], us[1..], close, x, y);
        assert ts == [ts[0]] + ts[1..] && us == [us[0]] + us[1..];
      }
    }
  }

  lemma FirstTokensEqual(ts: seq<string>, us: seq<string>, close: char, x: string, y: string)
    requires ts != [] && us != [] && (close == ']' || close == '}')
    requires Separable(ts[0], us[0])
    requires Delimited(JoinRest(ts, close, x)) && Delimited(JoinRest(us, close, y))
    requires ts[0] + JoinRest(ts, close, x) == us[0] + JoinRest(us, close, y)
    ensures ts[0] == us[0]
    ensures |ts| == 1 ==> |us| == 1 && x == y
    ensures |ts| > 1 ==> |us| > 1 && Join(ts[1..]) + [close] + x == Join(us[1..]) + [close] + y
  {
    hide Join;
    var l, r := JoinRest(ts, close, x), JoinRest(us, close, y);
    assert TwoReadings(ts[0], l, us[0], r);
    CancelPrefix(ts[0], l, r);
    assert l[0] == r[0];
    if |ts| == 1 {
      CancelPrefix([close], x, y);
    } else {
      CancelPrefix(",", Join(ts[1..]) + [close] + x, Join(us[1..]) + [close] + y);
    }
  }

  /** What follows the first token of a bracketed list. */
  function JoinRest(ts: seq<string>, close: char, x: string): string
    requires ts != []
  {
    if |ts| == 1 then [close] + x else "," + (Join(ts[1..]) + [close] + x)
  }

  lemma {:induction false} JoinHead(ts: seq<string>, close: char, x: string)
    requires close == ']' || close == '}'
    requires forall i :: 0 <= i < |ts| ==> IsToken(ts[i])
    ensures ts == [] ==> (Join(ts) + [close] + x)[0] == close
    ensures ts != [] ==> Join(ts) + [close] + x == ts[0] + JoinRest(ts, close, x)
    ensures ts != [] ==> ts[0] != "" && (Join(ts) + [close] + x)[0] == ts[0][0] != close
    ensures ts != [] ==> Delimited(JoinRest(ts, close, x))
  {
    if |ts| == 1 {
      assert IsToken(ts[0]);
    } else if |ts| > 1 {
      assert IsToken(ts[0]);
      Reassociate(ts[0], Join(ts[1..]), close, x);
    }
  }

  lemma Reassociate(t: string, rest: string, close: char, x: string)
    ensures (t + "," + rest) + [close] + x == t + ("," + (rest + [close] + x))
  {}

  lemma TextIsToken(v: Json)
    ensures IsToken(Stringify(v))
  {
    if v.Num? { IntTextShape(v.n); }
  }

  lemma RenderTokens(es: seq<Entry>)
    ensures forall i :: 0 <= i < |es| ==> IsToken(Render(es)[i])
  {}

  /** The first character of the text tells the kind of value. */
  lemma DifferentKindsSeparable(a: Json, b: Json)
    requires a.Num? != b.Num? || a.Str? != b.Str? || a.Arr? != b.Arr? || a.Obj? != b.Obj? || a.Null? != b.Null?
             || (a.Bool? && a != b)
    ensures Separable(Stringify(a), Stringify(b))
  {
    var t, u := Stringify(a), Stringify(b);
    TextIsToken(a);
    TextIsToken(b);
    if a.Num? { IntTextShape(a.n); }
    if b.Num? { IntTextShape(b.n); }
    assert t[0] != u[0];
    assert forall x, y :: (t + x)[0] == t[0] && (u + y)[0] == u[0];
  }

  lemma ObjectTokensSeparable(ms: seq<Member>, ns: seq<Member>)
    requires forall i, j :: 0 <= i < |ms| && 0 <= j < |ns| ==> Separable(Stringify(ms[i].value), Stringify(ns[j].value))
    ensures var ts, us := Render(SortByKey(Entries(ms))), Render(SortByKey(Entries(ns)));
            forall i, j :: 0 <= i < |ts| && 0 <= j < |us| ==> Separable(ts[i], us[j])
  {
    var es, fs := SortByKey(Entries(ms)), SortByKey(Entries(ns));
    SortKeepsEntries(Entries(ms));
    SortKeepsEntries(Entries(ns));
    forall i, j | 0 <= i < |es| && 0 <= j < |fs| ensures Separable(Render(es)[i], Render(fs)[j]) {
      assert es[i] in Entries(ms) && fs[j] in Entries(ns);
      RenderedSeparable(es[i].key, es[i].text, fs[j].key, fs[j].text);
    }
  }

  /** Unique readability: no printed value is a delimited beginning of another. */
  lemma {:induction false} TextsSeparable(a: Json, b: Json)
    ensures Separable(Stringify(a), Stringify(b))
    decreases a
  {
    if a.Num? && b.Num? {
      IntSeparable(a.n, b.n);
    } else if a.Str? && b.Str? {
      QuoteSeparable(a.s, b.s);
    } else if a.Arr? && b.Arr? {
      var ts, us := ItemTexts(a.items), ItemTexts(b.items);
      forall i, j | 0 <= i < |ts| && 0 <= j < |us| ensures Separable(ts[i], us[j]) {
        TextsSeparable(a.items[i], b.items[j]);
      }
      forall i | 0 <= i < |ts| ensures IsToken(ts[i]) { TextIsToken(a.items[i]); }
      forall j | 0 <= j < |us| ensures IsToken(us[j]) { TextIsToken(b.items[j]); }
      StringifyArr(a.items);
      StringifyArr(b.items);
      BracketedSeparable('[', ts, us, ']');
    } else if a.Obj? && b.Obj? {
      forall i, j | 0 <= i < |a.members| && 0 <= j < |b.members|
        ensures Separable(Stringify(a.members[i].value), Stringify(b.members[j].value))
      {
        TextsSeparable(a.members[i].value, b.members[j].value);
      }
      ObjectTokensSeparable(a.members, b.members);
      var es, fs := SortByKey(Entries(a.members)), SortByKey(Entries(b.members));
      RenderTokens(es);
      RenderTokens(fs);
      StringifyObj(a.members);
      StringifyObj(b.members);
      BracketedSeparable('{', Render(es), Render(fs), '}');
    } else if a != b {
      DifferentKindsSeparable(a, b);
    }
  }

  lemma BracketedSeparable(open: char, ts: seq<string>, us: seq<string>, close: char)
    requires close == ']' || close == '}'
    requires forall i :: 0 <= i < |ts| ==> IsToken(ts[i])
    requires forall j :: 0 <= j < |us| ==> IsToken(us[j])
    requires forall i, j :: 0 <= i < |ts| && 0 <= j < |us| ==> Separable(ts[i], us[j])
    ensures Separable([open] + Join(ts) + [close], [open] + Join(us) + [close])
  {
    hide Join;
    forall x, y | TwoReadings([open] + Join(ts) + [close], x, [open] + Join(us) + [close], y)
      ensures [open] + Join(ts) + [close] == [open] + Join(us) + [close]
    {
      Unbracket(open, Join(ts), close, x);
      Unbracket(open, Join(us), close, y);
      CancelPrefix([open], Join(ts) + [close] + x, Join(us) + [close] + y);
      JoinReadable(ts, us, close, x, y);
    }
  }

  lemma Unbracket(open: char, body: string, close: char, x: string)
    ensures ([open] + body + [close]) + x == [open] + (body + [close] + x)
  {}

  // ---------- The canonical form ----------

  lemma RenderInjective(es: seq<Entry>, fs: seq<Entry>)
    requires Render(es) == Render(fs)
    ensures es == fs
  {
    assert |es| == |Render(es)| == |Render(fs)| == |fs|;
    forall i | 0 <= i < |es| ensures es[i] == fs[i] {
      assert Render(es)[i] == Render(fs)[i];
      assert Quote(es[i].key) + (":" + es[i].text) == Render(es)[i];
      assert Quote(fs[i].key) + (":" + fs[i].text) == Render(fs)[i];
      QuoteReadable(es[i].key, fs[i].key, ":" + es[i].text, ":" + fs[i].text);
      CancelPrefix(":", es[i].text, fs[i].text);
    }
  }

  /** The tokens of two equal object texts are the same, hence so are the sorted properties. */
  lemma ObjectTextDeterminesEntries(ms: seq<Member>, ns: seq<Member>)
    requires Stringify(Obj(ms)) == Stringify(Obj(ns))
    ensures forall e :: e in Entries(ms) <==> e in Entries(ns)
  {
    forall i, j | 0 <= i < |ms| && 0 <= j < |ns|
      ensures Separable(Stringify(ms[i].value), Stringify(ns[j].value))
    {
      TextsSeparable(ms[i].value, ns[j].value);
    }
    ObjectTokensSeparable(ms, ns);
    var es, fs := SortByKey(Entries(ms)), SortByKey(Entries(ns));
    StringifyObj(ms);
    StringifyObj(ns);
    BracketedInjective('{', Render(es), Render(fs), '}');
    RenderInjective(es, fs);
    SortKeepsEntries(Entries(ms));
    SortKeepsEntries(Entries(ns));
  }

  lemma BracketedInjective(open: char, ts: seq<string>, us: seq<string>, close: char)
    requires close == ']' || close == '}'
    requires forall i :: 0 <= i < |ts| ==> IsToken(ts[i])
    requires forall j :: 0 <= j < |us| ==> IsToken(us[j])
    requires forall i, j :: 0 <= i < |ts| && 0 <= j < |us| ==> Separable(ts[i], us[j])
    requires [open] + Join(ts) + [close] == [open] + Join(us) + [close]
    ensures ts == us
  {
    assert [open] + (Join(ts) + [close] + "") == [open] + Join(ts) + [close];
    assert [open] + (Join(us) + [close] + "") == [open] + Join(us) + [close];
    CancelPrefix([open], Join(ts) + [close] + "", Join(us) + [close] + "");
    JoinReadable(ts, us, close, "", "");
  }

  lemma {:induction false} TextDeterminesValue(a: Json, b: Json)
    requires WellFormed(a) && WellFormed(b)
    requires Stringify(a) == Stringify(b)
    ensures SameUpToKeyOrder(a, b)
    decreases a
  {
    hide Stringify, Quote;
    TextDeterminesKind(a, b);
    match a
    case Arr(xs) =>
      ArrayTextDeterminesItems(xs, b.items);
      forall i | 0 <= i < |xs| ensures SameUpToKeyOrder(xs[i], b.items[i]) {
        TextDeterminesValue(xs[i], b.items[i]);
      }
    case Obj(ms) =>
      var ns := b.members;
      ObjectTextDeterminesEntries(ms, ns);
      SameEntriesSameKeys(ms, ns);
      forall i, j | 0 <= i < |ms| && 0 <= j < |ns| && ms[i].key == ns[j].key
        ensures SameUpToKeyOrder(ms[i].value, ns[j].value)
      {
        assert Entries(ms)[i] in Entries(ns);
        assert Entries(ms)[i] == Entries(ns)[j];
        TextDeterminesValue(ms[i].value, ns[j].value);
      }
    case _ =>
  }

  lemma SameEntriesSameKeys(ms: seq<Member>, ns: seq<Member>)
    requires forall e :: e in Entries(ms) <==> e in Entries(ns)
    ensures Keys(ms) == Keys(ns)
  {
    forall k ensures k in Keys(ms) <==> k in Keys(ns) {
      EntriesKeys(ms, k);
      EntriesKeys(ns, k);
    }
  }

  lemma EntriesKeys(ms: seq<Member>, k: string)
    ensures k in Keys(ms) <==> exists e :: e in Entries(ms) && e.key == k
  {
    if k in Keys(ms) {
      var m :| m in ms && m.key == k;
      var i :| 0 <= i < |ms| && ms[i] == m;
      assert Entries(ms)[i] in Entries(ms);
    }
    if e :| e in Entries(ms) && e.key == k {
      var i :| 0 <= i < |ms| && Entries(ms)[i] == e;
      assert ms[i] in ms;
    }
  }

  lemma TextDeterminesKind(a: Json, b: Json)
    requires Stringify(a) == Stringify(b)
    ensures a.Arr? == b.Arr? && a.Obj? == b.Obj?
    ensures !a.Arr? && !a.Obj? ==> a == b
  {
    assert Stringify(a)[0] == Stringify(b)[0];
    if a.Num? { IntTextShape(a.n); }
    if b.Num? { IntTextShape(b.n); }
    if a.Num? && b.Num? {
      IntTextInjective(a.n, b.n);
    } else if a.Str? && b.Str? {
      assert Quote(a.s) + "" == Quote(b.s) + "";
      QuoteReadable(a.s, b.s, "", "");
    }
  }

  lemma ArrayTextDeterminesItems(xs: seq<Json>, ys: seq<Json>)
    requires Stringify(Arr(xs)) == Stringify(Arr(ys))
    ensures |xs| == |ys|
    ensures forall i :: 0 <= i < |xs| ==> Stringify(xs[i]) == Stringify(ys[i])
  {
    var ts, us := ItemTexts(xs), ItemTexts(ys);
    forall i, j | 0 <= i < |ts| && 0 <= j < |us| ensures Separable(ts[i], us[j]) {
      TextsSeparable(xs[i], ys[j]);
    }
    forall i | 0 <= i < |ts| ensures IsToken(ts[i]) { TextIsToken(xs[i]); }
    forall j | 0 <= j < |us| ensures IsToken(us[j]) { TextIsToken(ys[j]); }
    StringifyArr(xs);
    StringifyArr(ys);
    BracketedInjective('[', ts, us, ']');
    forall i | 0 <= i < |xs| ensures Stringify(xs[i]) == Stringify(ys[i]) {
      assert ts[i] == us[i];
    }
  }

  lemma {:induction false} ValueDeterminesText(a: Json, b: Json)
    requires WellFormed(a) && WellFormed(b)
    requires SameUpToKeyOrder(a, b)
    ensures Stringify(a) == Stringify(b)
    decreases a
  {
    match a
    case Arr(xs) =>
      forall i | 0 <= i < |xs| ensures ItemTexts(xs)[i] == ItemTexts(b.items)[i] {
        ValueDeterminesText(xs[i], b.items[i]);
      }
      assert ItemTexts(xs) == ItemTexts(b.items);
      StringifyArr(xs);
      StringifyArr(b.items);
    case Obj(ms) =>
      var ns := b.members;
      forall i, j | 0 <= i < |ms| && 0 <= j < |ns| && ms[i].key == ns[j].key
        ensures Entries(ms)[i] == Entries(ns)[j]
      {
        ValueDeterminesText(ms[i].value, ns[j].value);
      }
      EntriesIncluded(ms, ns);
      EntriesIncluded(ns, ms);
      SortKeepsEntries(Entries(ms));
      SortKeepsEntries(Entries(ns));
      SortedKeysDistinct(ms);
      SortedKeysDistinct(ns);
      SortedListingUnique(SortByKey(Entries(ms)), SortByKey(Entries(ns)));
      StringifyObj(ms);
      StringifyObj(ns);
    case _ =>
  }

  lemma EntriesIncluded(ms: seq<Member>, ns: seq<Member>)
    requires Keys(ms) <= Keys(ns)
    requires forall i, j :: 0 <= i < |ms| && 0 <= j < |ns| && ms[i].key == ns[j].key ==>
               Entries(ms)[i] == Entries(ns)[j]
    ensures forall e :: e in Entries(ms) ==> e in Entries(ns)
  {
    forall e | e in Entries(ms) ensures e in Entries(ns) {
      var i :| 0 <= i < |ms| && Entries(ms)[i] == e;
      assert ms[i].key in Keys(ms);
      var n :| n in ns && n.key == ms[i].key;
      var j :| 0 <= j < |ns| && ns[j] == n;
      assert Entries(ns)[j] == e;
    }
  }

  lemma SortedKeysDistinct(ms: seq<Member>)
    requires DistinctKeys(ms)
    ensures DistinctEntries(SortByKey(Entries(ms)))
  {
    hide Stringify, SortByKey;
    SortSorts(Entries(ms));
    PermutationKeepsDistinct(Entries(ms), SortByKey(Entries(ms)));
  }

  lemma PermutationKeepsDistinct(fs: seq<Entry>, es: seq<Entry>)
    requires DistinctEntries(fs) && multiset(es) == multiset(fs)
    ensures DistinctEntries(es)
  {
    forall i, j | 0 <= i < j < |es| ensures es[i].key != es[j].key {
      assert es[i] in multiset(es) && es[j] in multiset(es);
      assert es[i] in fs && es[j] in fs;
      if es[i] == es[j] {
        TwiceInMultiset(es, i, j);
        AtMostOnce(fs, es[i]);
        assert false;
      }
    }
  }

  /** Main result: two values print to the same text exactly when they are equal up to the order
      of object keys, at every depth. */
  lemma CanonicalForm(a: Json, b: Json)
    requires WellFormed(a) && WellFormed(b)
    ensures Stringify(a) == Stringify(b) <==> SameUpToKeyOrder(a, b)
  {
    if Stringify(a) == Stringify(b) { TextDeterminesValue(a, b); }
    if SameUpToKeyOrder(a, b) { ValueDeterminesText(a, b); }
  }
}
