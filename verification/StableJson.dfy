/** The deterministic printer behind section comparison (src/lib/server/config/effective.ts):
    object keys are sorted, everything else is printed as JSON. */
module StableJson {
  import opened Options
  import opened Strings

  /** A JSON value. `Num` carries the text JSON.stringify gives a finite number, so equal
      tokens are equal numbers (0 and -0 share one); members are in insertion order. */
  datatype Json =
    | Null
    | Bool(b: bool)
    | Num(token: string)
    | Str(s: string)
    | Arr(items: seq<Json>)
    | Obj(members: seq<Member>)

  datatype Member = Member(key: string, value: Json)

  const NUMBER_CHARS: set<char> := {'0', '1', '2', '3', '4', '5', '6', '7', '8', '9', '-', '+', '.', 'e'}

  predicate NumberToken(t: string) {
    t != "" && forall k :: 0 <= k < |t| ==> t[k] in NUMBER_CHARS
  }

  predicate DistinctKeys(ms: seq<Member>) {
    forall i, j :: 0 <= i < j < |ms| ==> ms[i].key != ms[j].key
  }

  /** What every JavaScript value satisfies: number tokens, and one member per key. */
  predicate Valid(v: Json) {
    match v
    case Num(t) => NumberToken(t)
    case Arr(items) => forall i :: 0 <= i < |items| ==> Valid(items[i])
    case Obj(ms) => DistinctKeys(ms) && forall i :: 0 <= i < |ms| ==> Valid(ms[i].value)
    case _ => true
  }

  /** The index of a key, or the length when it is absent. */
  function Find(ms: seq<Member>, key: string): (i: nat)
    ensures i <= |ms|
    ensures i < |ms| ==> ms[i].key == key
    ensures i == |ms| <==> forall k :: 0 <= k < |ms| ==> ms[k].key != key
  {
    if ms == [] then 0 else if ms[0].key == key then 0 else Find(ms[1..], key) + 1
  }

  predicate Has(ms: seq<Member>, key: string) {
    Find(ms, key) < |ms|
  }

  function Get(ms: seq<Member>, key: string): Json
    requires Has(ms, key)
  {
    ms[Find(ms, key)].value
  }

  /** Equality of JSON values with the order of object members ignored. */
  predicate SameValue(a: Json, b: Json) {
    match (a, b)
    case (Arr(xs), Arr(ys)) => |xs| == |ys| && forall i :: 0 <= i < |xs| ==> SameValue(xs[i], ys[i])
    case (Obj(ms), Obj(ns)) =>
      (forall j :: 0 <= j < |ns| ==> Has(ms, ns[j].key))
      && forall i :: 0 <= i < |ms| ==> Has(ns, ms[i].key) && SameValue(ms[i].value, Get(ns, ms[i].key))
    case _ => a == b
  }

  // ----- the printer -----

  function HexDigit(n: nat): char
    requires n < 16
  {
    "0123456789abcdef"[n]
  }

  /** JSON.stringify on one character of a string. */
  function QuoteChar(c: char): string {
    if c == '"' then "\\\""
    else if c == '\\' then "\\\\"
    else if c == '\U{8}' then "\\b"
    else if c == '\U{C}' then "\\f"
    else if c == '\n' then "\\n"
    else if c == '\r' then "\\r"
    else if c == '\t' then "\\t"
    else if c < ' ' then "\\u00" + [HexDigit(c as int / 16), HexDigit(c as int % 16)]
    else [c]
  }

  function QuoteBody(s: string): string {
    if s == "" then "" else QuoteChar(s[0]) + QuoteBody(s[1..])
  }

  function Quote(s: string): string {
    "\"" + QuoteBody(s) + "\""
  }

  /** JavaScript's default string order: by code unit, a proper prefix first. */
  predicate Less(a: string, b: string) {
    if b == "" then false
    else if a == "" then true
    else a[0] < b[0] || (a[0] == b[0] && Less(a[1..], b[1..]))
  }

  datatype Entry = Entry(key: string, text: string)

  function Insert(e: Entry, es: seq<Entry>): (r: seq<Entry>)
    ensures multiset(r) == multiset(es) + multiset{e}
  {
    if es == [] then [e]
    else if Less(es[0].key, e.key) then
      assert es == [es[0]] + es[1..];
      [es[0]] + Insert(e, es[1..])
    else [e] + es
  }

  function SortByKey(es: seq<Entry>): (r: seq<Entry>)
    ensures multiset(r) == multiset(es)
  {
    if es == [] then [] else
      assert es == [es[0]] + es[1..];
      Insert(es[0], SortByKey(es[1..]))
  }

  function StableStringify(v: Json): string {
    match v
    case Null => "null"
    case Bool(b) => if b then "true" else "false"
    case Num(t) => t
    case Str(s) => Quote(s)
    case Arr(items) => "[" + ItemsText(items) + "]"
    case Obj(ms) => "{" + EntriesText(SortByKey(Entries(ms))) + "}"
  }

  function ItemsText(items: seq<Json>): string {
    if items == [] then ""
    else StableStringify(items[0]) + if |items| == 1 then "" else "," + ItemsText(items[1..])
  }

  /** Each member's key with the text of its value. */
  function Entries(ms: seq<Member>): (es: seq<Entry>)
    ensures |es| == |ms|
    ensures forall i :: 0 <= i < |ms| ==> es[i] == Entry(ms[i].key, StableStringify(ms[i].value))
  {
    if ms == [] then []
    else [Entry(ms[0].key, StableStringify(ms[0].value))] + Entries(ms[1..])
  }

  function EntriesText(es: seq<Entry>): string {
    if es == [] then ""
    else Quote(es[0].key) + ":" + es[0].text + if |es| == 1 then "" else "," + EntriesText(es[1..])
  }

  // ----- sorting is canonical -----

  lemma {:induction false} LessTrans(a: string, b: string, c: string)
    requires Less(a, b) && Less(b, c)
    ensures Less(a, c)
    decreases |a|
  {
    if a != "" && a[0] == b[0] == c[0] { LessTrans(a[1..], b[1..], c[1..]); }
  }

  lemma {:induction false} LessTotal(a: string, b: string)
    ensures !Less(a, a)
    ensures Less(a, b) || a == b || Less(b, a)
    ensures Less(a, b) ==> !Less(b, a) && a != b
    decreases |a| + |b|
  {
    if a != "" && b != "" {
      LessTotal(a[1..], b[1..]);
      assert a == [a[0]] + a[1..] && b == [b[0]] + b[1..];
    } else if a != "" {
      LessTotal(a[1..], "");
    }
  }

  predicate Sorted(es: seq<Entry>) {
    forall i, j :: 0 <= i < j < |es| ==> Less(es[i].key, es[j].key)
  }

  predicate DistinctEntries(es: seq<Entry>) {
    forall i, j :: 0 <= i < j < |es| ==> es[i].key != es[j].key
  }

  lemma InSameMultiset(a: seq<Entry>, b: seq<Entry>)
    requires multiset(a) == multiset(b)
    ensures forall e :: e in a <==> e in b
  {
    forall e ensures e in a <==> e in b {
      assert e in a <==> e in multiset(a);
      assert e in b <==> e in multiset(b);
    }
  }

  lemma {:induction false} InsertSorted(e: Entry, es: seq<Entry>)
    requires Sorted(es) && forall k :: 0 <= k < |es| ==> es[k].key != e.key
    ensures Sorted(Insert(e, es))
    decreases |es|
  {
    if es != [] {
      if Less(es[0].key, e.key) {
        InsertSorted(e, es[1..]);
        var r := Insert(e, es[1..]);
        forall k | 0 <= k < |r| ensures Less(es[0].key, r[k].key) {
          assert r[k] in multiset(r);
          assert r[k] in es[1..] || r[k] == e;
        }
      } else {
        LessTotal(es[0].key, e.key);
        forall k | 0 < k < |es| ensures Less(e.key, es[k].key) {
          LessTrans(e.key, es[0].key, es[k].key);
        }
      }
    }
  }

  lemma {:induction false} SortSorts(es: seq<Entry>)
    requires DistinctEntries(es)
    ensures Sorted(SortByKey(es))
    decreases |es|
  {
    if es != [] {
      SortSorts(es[1..]);
      var r := SortByKey(es[1..]);
      InSameMultiset(r, es[1..]);
      forall k | 0 <= k < |r| ensures r[k].key != es[0].key {
        assert r[k] in es[1..];
      }
      InsertSorted(es[0], r);
    }
  }

  /** A strictly sorted list is determined by its elements. */
  lemma {:induction false} SortedUnique(a: seq<Entry>, b: seq<Entry>)
    requires Sorted(a) && Sorted(b) && forall e :: e in a <==> e in b
    ensures a == b
    decreases |a|
  {
    assert b != [] ==> b[0] in b;
    if a != [] {
      assert a[0] in b;
      assert b[0] in a;
      LessTotal(a[0].key, b[0].key);
      var i :| 0 <= i < |b| && b[i] == a[0];
      var j :| 0 <= j < |a| && a[j] == b[0];
      assert a[0] == b[0];
      forall e ensures e in a[1..] <==> e in b[1..] {
        if e in a[1..] { LessTotal(a[0].key, e.key); assert e in a; }
        if e in b[1..] { LessTotal(b[0].key, e.key); assert e in b; }
      }
      SortedUnique(a[1..], b[1..]);
      assert a == [a[0]] + a[1..] && b == [b[0]] + b[1..];
    }
  }

  // ----- the printer is uniquely readable -----

  /** What may follow a value inside a document. */
  predicate Delimited(x: string) {
    x == "" || x[0] in {',', ']', '}'}
  }

  lemma Unprefix(p: string, x: string, y: string)
    requires p + x == p + y
    ensures x == y
  {
    assert (p + x)[|p|..] == x && (p + y)[|p|..] == y;
  }

  lemma HexInjective(m: nat, n: nat)
    requires m < 16 && n < 16 && HexDigit(m) == HexDigit(n)
    ensures m == n
  {
    var h := "0123456789abcdef";
    assert h[0] == '0' && h[1] == '1' && h[2] == '2' && h[3] == '3' && h[4] == '4' && h[5] == '5'
        && h[6] == '6' && h[7] == '7' && h[8] == '8' && h[9] == '9' && h[10] == 'a' && h[11] == 'b'
        && h[12] == 'c' && h[13] == 'd' && h[14] == 'e' && h[15] == 'f';
  }

  lemma QuoteCharShape(c: char)
    ensures QuoteChar(c) != "" && QuoteChar(c)[0] != '"'
    ensures QuoteChar(c)[0] != '\\' ==> QuoteChar(c) == [c]
    ensures QuoteChar(c)[0] == '\\' ==> |QuoteChar(c)| == if QuoteChar(c)[1] == 'u' then 6 else 2
  {}

  lemma QuoteCharInjective(a: char, b: char, x: string, y: string)
    requires QuoteChar(a) + x == QuoteChar(b) + y
    ensures a == b && x == y
  {
    var s, p, q := QuoteChar(a) + x, QuoteChar(a), QuoteChar(b);
    QuoteCharShape(a);
    QuoteCharShape(b);
    assert s[0] == p[0] && s[0] == q[0];
    if s[0] == '\\' {
      assert s[1] == p[1] && s[1] == q[1];
      assert |p| == |q|;
      assert p == s[..|p|] && q == s[..|q|];
      if s[1] == 'u' {
        assert p[4] == q[4] && p[5] == q[5];
        HexInjective(a as int / 16, b as int / 16);
        HexInjective(a as int % 16, b as int % 16);
      }
    }
    Unprefix(p, x, y);
  }

  // A string body, its closing quote and what follows.
  function ClosedBody(s: string, x: string): string {
    if s == "" then ['"'] + x else QuoteChar(s[0]) + ClosedBody(s[1..], x)
  }

  lemma {:induction false} QuoteIsClosed(s: string, x: string)
    ensures Quote(s) + x == ['"'] + ClosedBody(s, x)
    decreases |s|
  {
    BodyIsClosed(s, x);
    Assoc("\"" + QuoteBody(s), "\"", x);
    Assoc("\"", QuoteBody(s), "\"" + x);
  }

  lemma {:induction false} BodyIsClosed(s: string, x: string)
    ensures QuoteBody(s) + ("\"" + x) == ClosedBody(s, x)
    decreases |s|
  {
    if s == "" {
      assert "" + ("\"" + x) == ['"'] + x;
    } else {
      BodyIsClosed(s[1..], x);
      Assoc(QuoteChar(s[0]), QuoteBody(s[1..]), "\"" + x);
    }
  }

  lemma ClosedBodyHead(s: string, x: string)
    ensures ClosedBody(s, x) != "" && (ClosedBody(s, x)[0] == '"' <==> s == "")
  {
    if s != "" { QuoteCharShape(s[0]); }
  }

  lemma {:induction false} ClosedBodyInjective(a: string, b: string, x: string, y: string)
    requires ClosedBody(a, x) == ClosedBody(b, y)
    ensures a == b && x == y
    decreases |a|
  {
    ClosedBodyHead(a, x);
    ClosedBodyHead(b, y);
    if a == "" {
      Unprefix(['"'], x, y);
    } else {
      QuoteCharInjective(a[0], b[0], ClosedBody(a[1..], x), ClosedBody(b[1..], y));
      ClosedBodyInjective(a[1..], b[1..], x, y);
      assert a == [a[0]] + a[1..] && b == [b[0]] + b[1..];
    }
  }

  /** A quoted string delimits itself. */
  lemma QuoteInjective(a: string, b: string, x: string, y: string)
    requires Quote(a) + x == Quote(b) + y
    ensures a == b && x == y
  {
    QuoteIsClosed(a, x);
    QuoteIsClosed(b, y);
    Unprefix(['"'], ClosedBody(a, x), ClosedBody(b, y));
    ClosedBodyInjective(a, b, x, y);
  }

  lemma TokenEnds(s: string, t: string, x: string, y: string)
    requires NumberToken(t) && Delimited(x) && s + x == t + y
    ensures |t| <= |s|
  {
    var w := s + x;
    assert x != "" ==> w[|s|] == x[0];
    assert forall k :: 0 <= k < |t| ==> (t + y)[k] == t[k];
    assert |w| > |s| ==> w[|s|] !in NUMBER_CHARS;
  }

  lemma TokenInjective(s: string, t: string, x: string, y: string)
    requires NumberToken(s) && NumberToken(t) && Delimited(x) && Delimited(y) && s + x == t + y
    ensures s == t && x == y
  {
    TokenEnds(s, t, x, y);
    TokenEnds(t, s, y, x);
    assert s == (s + x)[..|s|] && t == (t + y)[..|t|];
    Unprefix(s, x, y);
  }

  function Tag(v: Json): nat {
    match v
    case Null => 0
    case Bool(b) => if b then 1 else 2
    case Num(_) => 3
    case Str(_) => 4
    case Arr(_) => 5
    case Obj(_) => 6
  }

  /** The first character tells the kind of value (and which boolean). */
  function TagOfText(c: char): nat {
    if c == 'n' then 0 else if c == 't' then 1 else if c == 'f' then 2
    else if c == '"' then 4 else if c == '[' then 5 else if c == '{' then 6 else 3
  }

  lemma HeadTag(v: Json)
    requires Valid(v)
    ensures StableStringify(v) != "" && TagOfText(StableStringify(v)[0]) == Tag(v)
    ensures StableStringify(v)[0] !in {']', '}', ','}
  {
    match v
    case Str(s) => Assoc("\"", QuoteBody(s), "\"");
    case Arr(items) => Assoc("[", ItemsText(items), "]");
    case Obj(ms) => Assoc("{", EntriesText(SortByKey(Entries(ms))), "}");
    case _ =>
  }

  /** Reading a value and what follows it back gives the value, up to member order. */
  lemma {:induction false} Injective(a: Json, b: Json, x: string, y: string)
    requires Valid(a) && Valid(b) && Delimited(x) && Delimited(y)
    requires StableStringify(a) + x == StableStringify(b) + y
    ensures SameValue(a, b) && x == y
    decreases a, 2
  {
    HeadTag(a);
    HeadTag(b);
    var s, t := StableStringify(a), StableStringify(b);
    assert (s + x)[0] == s[0] && (t + y)[0] == t[0];
    assert Tag(a) == Tag(b);
    match a
    case Num(_) => TokenInjective(s, t, x, y);
    case Str(_) => QuoteInjective(a.s, b.s, x, y);
    case Arr(xs) =>
      ArrayText(xs, x);
      ArrayText(b.items, y);
      Unprefix("[", ItemsText(xs) + ("]" + x), ItemsText(b.items) + ("]" + y));
      ItemsInjective(xs, b.items, x, y);
    case Obj(ms) =>
      ObjectInjective(ms, b.members, x, y);
    case _ => Unprefix(s, x, y);
  }

  lemma ArrayText(xs: seq<Json>, x: string)
    ensures StableStringify(Arr(xs)) + x == "[" + (ItemsText(xs) + ("]" + x))
  {
    Assoc("[" + ItemsText(xs), "]", x);
    Assoc("[", ItemsText(xs), "]" + x);
  }

  // The text of a non-empty item list, cut after its first value.
  lemma ItemsCut(xs: seq<Json>, x: string) returns (rest: string)
    requires xs != []
    ensures rest == if |xs| == 1 then "]" + x else "," + (ItemsText(xs[1..]) + ("]" + x))
    ensures ItemsText(xs) + ("]" + x) == StableStringify(xs[0]) + rest
    ensures Delimited(rest)
  {
    var close := "]" + x;
    if |xs| == 1 {
      rest := close;
      assert StableStringify(xs[0]) + "" == StableStringify(xs[0]);
    } else {
      rest := "," + (ItemsText(xs[1..]) + close);
      Assoc(",", ItemsText(xs[1..]), close);
      Assoc(StableStringify(xs[0]), "," + ItemsText(xs[1..]), close);
    }
  }

  lemma {:induction false} ItemsInjective(xs: seq<Json>, ys: seq<Json>, x: string, y: string)
    requires forall i :: 0 <= i < |xs| ==> Valid(xs[i])
    requires forall i :: 0 <= i < |ys| ==> Valid(ys[i])
    requires ItemsText(xs) + ("]" + x) == ItemsText(ys) + ("]" + y)
    ensures |xs| == |ys| && forall i :: 0 <= i < |xs| ==> SameValue(xs[i], ys[i])
    ensures x == y
    decreases xs, 1
  {
    ItemsHead(xs, x);
    ItemsHead(ys, y);
    assert xs == [] <==> ys == [];
    if xs == [] {
      assert "" + ("]" + x) == "]" + x && "" + ("]" + y) == "]" + y;
      Unprefix("]", x, y);
    } else {
      var r := ItemsCut(xs, x);
      var q := ItemsCut(ys, y);
      Injective(xs[0], ys[0], r, q);
      assert r[0] == q[0];
      assert |xs| == 1 <==> |ys| == 1;
      if |xs| == 1 {
        Unprefix("]", x, y);
      } else {
        Unprefix(",", ItemsText(xs[1..]) + ("]" + x), ItemsText(ys[1..]) + ("]" + y));
        ItemsInjective(xs[1..], ys[1..], x, y);
      }
    }
  }

  lemma ItemsHead(xs: seq<Json>, x: string)
    requires forall i :: 0 <= i < |xs| ==> Valid(xs[i])
    ensures (ItemsText(xs) + ("]" + x))[0] == ']' <==> xs == []
  {
    if xs != [] {
      var r := ItemsCut(xs, x);
      HeadTag(xs[0]);
      assert (StableStringify(xs[0]) + r)[0] == StableStringify(xs[0])[0];
    }
  }

  /** The entry holds a member of `ms` and the text of its value. */
  predicate EntryOf(ms: seq<Member>, e: Entry) {
    Has(ms, e.key) && e.text == StableStringify(Get(ms, e.key))
  }

  predicate ValidMembers(ms: seq<Member>) {
    DistinctKeys(ms) && forall i :: 0 <= i < |ms| ==> Valid(ms[i].value)
  }

  lemma FindOwn(ms: seq<Member>, i: nat)
    requires DistinctKeys(ms) && i < |ms|
    ensures Find(ms, ms[i].key) == i
  {}

  /** The sorted entries of an object: one per member, in key order. */
  lemma SortedEntries(ms: seq<Member>)
    requires DistinctKeys(ms)
    ensures var es := SortByKey(Entries(ms));
            Sorted(es) && (forall e :: e in es <==> EntryOf(ms, e))
  {
    var raw := Entries(ms);
    var es := SortByKey(raw);
    SortSorts(raw);
    InSameMultiset(es, raw);
    forall e ensures e in es <==> EntryOf(ms, e) {
      if e in es {
        var i :| 0 <= i < |raw| && raw[i] == e;
        FindOwn(ms, i);
      }
      if EntryOf(ms, e) {
        assert raw[Find(ms, e.key)] == e;
      }
    }
  }

  lemma ObjectText(ms: seq<Member>, x: string)
    ensures StableStringify(Obj(ms)) + x == "{" + (EntriesText(SortByKey(Entries(ms))) + ("}" + x))
  {
    var body := EntriesText(SortByKey(Entries(ms)));
    Assoc("{" + body, "}", x);
    Assoc("{", body, "}" + x);
  }

  // The text of a non-empty entry list: first key, colon, first value, rest.
  lemma EntriesCut(es: seq<Entry>, x: string) returns (rest: string)
    requires es != []
    ensures rest == if |es| == 1 then "}" + x else "," + (EntriesText(es[1..]) + ("}" + x))
    ensures EntriesText(es) + ("}" + x) == Quote(es[0].key) + (":" + (es[0].text + rest))
    ensures Delimited(rest)
  {
    var close := "}" + x;
    var tail := if |es| == 1 then "" else "," + EntriesText(es[1..]);
    rest := tail + close;
    if |es| == 1 {
      assert "" + close == close;
    } else {
      Assoc(",", EntriesText(es[1..]), close);
    }
    var q, t := Quote(es[0].key), es[0].text;
    Assoc(q + ":" + t, tail, close);
    Assoc(q + ":", t, rest);
    Assoc(q, ":", t + rest);
  }

  predicate EntriesOf(ms: seq<Member>, es: seq<Entry>) {
    forall k :: 0 <= k < |es| ==> EntryOf(ms, es[k])
  }

  predicate SameEntry(ms: seq<Member>, ns: seq<Member>, e: Entry, f: Entry) {
    e.key == f.key && Has(ms, e.key) && Has(ns, e.key) && SameValue(Get(ms, e.key), Get(ns, e.key))
  }

  predicate SameEntries(ms: seq<Member>, ns: seq<Member>, es: seq<Entry>, fs: seq<Entry>) {
    |es| == |fs| && forall k :: 0 <= k < |es| ==> SameEntry(ms, ns, es[k], fs[k])
  }

  lemma SameEntriesCons(ms: seq<Member>, ns: seq<Member>, es: seq<Entry>, fs: seq<Entry>)
    requires es != [] && fs != [] && SameEntry(ms, ns, es[0], fs[0]) && SameEntries(ms, ns, es[1..], fs[1..])
    ensures SameEntries(ms, ns, es, fs)
  {
    forall k | 0 <= k < |es| ensures SameEntry(ms, ns, es[k], fs[k]) {
      if k > 0 { assert es[k] == es[1..][k - 1] && fs[k] == fs[1..][k - 1]; }
    }
  }

  lemma {:induction false} EntriesInjective(ms: seq<Member>, ns: seq<Member>, es: seq<Entry>, fs: seq<Entry>, x: string, y: string)
    requires ValidMembers(ms) && ValidMembers(ns) && EntriesOf(ms, es) && EntriesOf(ns, fs)
    requires EntriesText(es) + ("}" + x) == EntriesText(fs) + ("}" + y)
    ensures SameEntries(ms, ns, es, fs) && x == y
    decreases ms, 1, |es|
  {
    EntriesHead(es, x);
    EntriesHead(fs, y);
    assert es == [] <==> fs == [];
    if es == [] {
      assert "" + ("}" + x) == "}" + x && "" + ("}" + y) == "}" + y;
      Unprefix("}", x, y);
    } else {
      EntriesStep(ms, ns, es, fs, x, y);
      if |es| > 1 {
        EntriesInjective(ms, ns, es[1..], fs[1..], x, y);
      }
      SameEntriesCons(ms, ns, es, fs);
    }
  }

  lemma EntriesStep(ms: seq<Member>, ns: seq<Member>, es: seq<Entry>, fs: seq<Entry>, x: string, y: string)
    requires ValidMembers(ms) && ValidMembers(ns) && es != [] && fs != []
    requires EntryOf(ms, es[0]) && EntryOf(ns, fs[0])
    requires EntriesText(es) + ("}" + x) == EntriesText(fs) + ("}" + y)
    ensures SameEntry(ms, ns, es[0], fs[0])
    ensures |es| == 1 <==> |fs| == 1
    ensures |es| == 1 ==> x == y
    ensures |es| > 1 ==> EntriesText(es[1..]) + ("}" + x) == EntriesText(fs[1..]) + ("}" + y)
    decreases ms, 0, 1
  {
    var r := EntriesCut(es, x);
    var q := EntriesCut(fs, y);
    FirstEntryInjective(ms, ns, es[0], fs[0], r, q);
    RestMatches(es, fs, x, y, r);
  }

  lemma FirstEntryInjective(ms: seq<Member>, ns: seq<Member>, e: Entry, f: Entry, r: string, q: string)
    requires ValidMembers(ms) && ValidMembers(ns) && EntryOf(ms, e) && EntryOf(ns, f)
    requires Delimited(r) && Delimited(q)
    requires Quote(e.key) + (":" + (e.text + r)) == Quote(f.key) + (":" + (f.text + q))
    ensures SameEntry(ms, ns, e, f) && r == q
    decreases ms, 0, 0
  {
    QuoteInjective(e.key, f.key, ":" + (e.text + r), ":" + (f.text + q));
    Unprefix(":", e.text + r, f.text + q);
    Injective(Get(ms, e.key), Get(ns, f.key), r, q);
  }

  // Equal remainders after the first entry: both lists end, or both go on.
  lemma RestMatches(es: seq<Entry>, fs: seq<Entry>, x: string, y: string, r: string)
    requires es != [] && fs != []
    requires r == if |es| == 1 then "}" + x else "," + (EntriesText(es[1..]) + ("}" + x))
    requires r == if |fs| == 1 then "}" + y else "," + (EntriesText(fs[1..]) + ("}" + y))
    ensures |es| == 1 <==> |fs| == 1
    ensures |es| == 1 ==> x == y
    ensures |es| > 1 ==> EntriesText(es[1..]) + ("}" + x) == EntriesText(fs[1..]) + ("}" + y)
  {
    assert r[0] == if |es| == 1 then '}' else ',';
    assert r[0] == if |fs| == 1 then '}' else ',';
    if |es| == 1 {
      Unprefix("}", x, y);
    } else {
      Unprefix(",", EntriesText(es[1..]) + ("}" + x), EntriesText(fs[1..]) + ("}" + y));
    }
  }

  lemma EntriesHead(es: seq<Entry>, x: string)
    ensures (EntriesText(es) + ("}" + x))[0] == '}' <==> es == []
  {
    if es != [] {
      var r := EntriesCut(es, x);
    }
  }

  lemma ObjectInjective(ms: seq<Member>, ns: seq<Member>, x: string, y: string)
    requires ValidMembers(ms) && ValidMembers(ns)
    requires StableStringify(Obj(ms)) + x == StableStringify(Obj(ns)) + y
    ensures SameValue(Obj(ms), Obj(ns)) && x == y
    decreases ms, 2
  {
    var es, fs := SortByKey(Entries(ms)), SortByKey(Entries(ns));
    ObjectText(ms, x);
    ObjectText(ns, y);
    Unprefix("{", EntriesText(es) + ("}" + x), EntriesText(fs) + ("}" + y));
    SortedEntries(ms);
    SortedEntries(ns);
    EntriesInjective(ms, ns, es, fs, x, y);
    SameFromEntries(ms, ns, es, fs);
  }

  lemma SameFromEntries(ms: seq<Member>, ns: seq<Member>, es: seq<Entry>, fs: seq<Entry>)
    requires DistinctKeys(ms) && DistinctKeys(ns)
    requires (forall e :: e in es <==> EntryOf(ms, e)) && (forall f :: f in fs <==> EntryOf(ns, f))
    requires |es| == |fs| && forall k :: 0 <= k < |es| ==> SameEntry(ms, ns, es[k], fs[k])
    ensures SameValue(Obj(ms), Obj(ns))
  {
    forall i | 0 <= i < |ms| ensures Has(ns, ms[i].key) && SameValue(ms[i].value, Get(ns, ms[i].key)) {
      FindOwn(ms, i);
      var e := Entry(ms[i].key, StableStringify(ms[i].value));
      assert EntryOf(ms, e);
      var k :| 0 <= k < |es| && es[k] == e;
      assert SameEntry(ms, ns, es[k], fs[k]);
    }
    forall j | 0 <= j < |ns| ensures Has(ms, ns[j].key) {
      FindOwn(ns, j);
      var f := Entry(ns[j].key, StableStringify(ns[j].value));
      assert EntryOf(ns, f);
      var k :| 0 <= k < |fs| && fs[k] == f;
      assert SameEntry(ms, ns, es[k], fs[k]);
    }
  }

  /** Values that differ only in member order print alike. */
  lemma {:induction false} SamePrintsAlike(a: Json, b: Json)
    requires Valid(a) && Valid(b) && SameValue(a, b)
    ensures StableStringify(a) == StableStringify(b)
    decreases a, 1
  {
    match a
    case Arr(xs) => SameItemsPrintAlike(xs, b.items);
    case Obj(ms) =>
      var ns := b.members;
      SortedEntries(ms);
      SortedEntries(ns);
      forall e ensures EntryOf(ms, e) <==> EntryOf(ns, e) {
        if Has(ms, e.key) {
          SamePrintsAlike(Get(ms, e.key), Get(ns, e.key));
        }
        if Has(ns, e.key) {
          assert Has(ms, ns[Find(ns, e.key)].key);
        }
      }
      SortedUnique(SortByKey(Entries(ms)), SortByKey(Entries(ns)));
    case _ =>
  }

  lemma {:induction false} SameItemsPrintAlike(xs: seq<Json>, ys: seq<Json>)
    requires |xs| == |ys| && forall i :: 0 <= i < |xs| ==> Valid(xs[i]) && Valid(ys[i]) && SameValue(xs[i], ys[i])
    ensures ItemsText(xs) == ItemsText(ys)
    decreases xs, 0
  {
    if xs != [] {
      SamePrintsAlike(xs[0], ys[0]);
      SameItemsPrintAlike(xs[1..], ys[1..]);
    }
  }

  // ----- section comparison -----

  /** `stableStringify(a) === stableStringify(b)`; JSON.stringify(undefined) is undefined. */
  predicate SectionsEqual(a: Option<Json>, b: Option<Json>) {
    match (a, b)
    case (None, None) => true
    case (Some(x), Some(y)) => StableStringify(x) == StableStringify(y)
    case _ => false
  }

  /** Sections compare equal exactly when they are the same value up to member order. */
  lemma SectionsEqualIsSameValue(a: Option<Json>, b: Option<Json>)
    requires (a.Some? ==> Valid(a.value)) && (b.Some? ==> Valid(b.value))
    ensures SectionsEqual(a, b)
       <==> (a.None? && b.None?) || (a.Some? && b.Some? && SameValue(a.value, b.value))
  {
    if a.Some? && b.Some? {
      var s, t := StableStringify(a.value), StableStringify(b.value);
      if s == t {
        assert s + "" == t + "";
        Injective(a.value, b.value, "", "");
      }
      if SameValue(a.value, b.value) {
        SamePrintsAlike(a.value, b.value);
      }
    }
  }
}
