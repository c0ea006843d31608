/** Unpadded base32 (src/lib/server/admin/totp.ts), section 6 of RFC 4648, on a 32-bit
    accumulator that is never masked: its high bits are shifted out. */
module Base32 {
  import opened Options
  import Strings

  type Byte = x: nat | x < 256

  const WORD := 0x1_0000_0000     // JavaScript's shifts work modulo this

  /** `value << k` and `value >>> k`, on the unsigned reading of the 32-bit pattern. */
  function ShiftLeft(value: nat, k: nat): (r: nat)
    ensures r < WORD
  {
    value * Pow2(k) % WORD
  }

  function ShiftRight(value: nat, k: nat): nat {
    Div(value, Pow2(k))
  }

  function Div(a: nat, b: nat): nat
    requires b > 0
  {
    a / b
  }

  function Pow2(k: nat): (p: nat)
    ensures p > 0
  {
    if k == 0 then 1 else 2 * Pow2(k - 1)
  }

  /** The symbols 'A' to 'Z' and '2' to '7', in this order. */
  function Symbol(i: nat): char
    requires i < 32
  {
    if i < 26 then ('A' as int + i) as char else ('2' as int + (i - 26)) as char
  }

  const ALPHABET := "ABCDEFGHIJKLMNOPQRSTUVWXYZ234567"

  /** The table of RFC 4648, section 6, in its order. */
  lemma SymbolsAreAlphabet(i: nat)
    requires i < 32
    ensures |ALPHABET| == 32 && ALPHABET[i] == Symbol(i)
  {}

  predicate IsSymbol(c: char) {
    'A' <= c <= 'Z' || '2' <= c <= '7'
  }

  function Index(c: char): (i: nat)
    requires IsSymbol(c)
    ensures i < 32 && Symbol(i) == c
  {
    if c >= 'A' then c as int - 'A' as int else c as int - '2' as int + 26
  }

  /** Digits of a number, most significant first. */
  function Num(base: nat, ds: seq<nat>): nat {
    if ds == [] then 0 else Num(base, ds[..|ds| - 1]) * base + ds[|ds| - 1]
  }

  predicate Below(base: nat, ds: seq<nat>) {
    forall i :: 0 <= i < |ds| ==> ds[i] < base
  }

  /** What encoding means: the bytes' bits, padded with zero bits to a multiple of five, cut into
      five-bit symbols; as numbers, the digits of the bytes shifted by the padding. */
  predicate Encodes(bytes: seq<nat>, ds: seq<nat>) {
    && |ds| == (8 * |bytes| + 4) / 5
    && Below(32, ds)
    && Num(32, ds) == Num(256, bytes) * Pow2(5 * |ds| - 8 * |bytes|)
  }

  /** What decoding means: the symbols' bits cut into bytes, and what does not fill a byte dropped. */
  predicate Decodes(ds: seq<nat>, bytes: seq<nat>) {
    && |bytes| == 5 * |ds| / 8
    && Below(256, bytes)
    && Num(256, bytes) == Num(32, ds) / Pow2(5 * |ds| - 8 * |bytes|)
  }

  // ----- numbers and digits -----

  lemma {:induction false} NumUnique(base: nat, a: seq<nat>, b: seq<nat>)
    requires base > 0 && |a| == |b| && Below(base, a) && Below(base, b) && Num(base, a) == Num(base, b)
    ensures a == b
  {
    if a != [] {
      var k := |a| - 1;
      LastDigit(base, Num(base, a[..k]), a[k], Num(base, b[..k]), b[k]);
      NumUnique(base, a[..k], b[..k]);
      assert a == a[..k] + [a[k]] && b == b[..k] + [b[k]];
    }
  }

  lemma AtLeast(d: nat, b: nat)
    requires d >= 1
    ensures d * b >= b
  {
    assert d * b == (d - 1) * b + b;
  }

  lemma Difference(q: nat, d: nat, b: nat)
    ensures (q + d) * b == q * b + d * b
  {}

  lemma QuotientUnique(b: nat, q: nat, r: nat, q': nat, r': nat, n: nat, n': nat)
    requires r < b && r' < b && n == q * b && n' == q' * b && n + r == n' + r'
    ensures q == q' && r == r'
  {
    if q < q' {
      Difference(q, q' - q, b);
      AtLeast(q' - q, b);
    } else if q' < q {
      Difference(q', q - q', b);
      AtLeast(q - q', b);
    }
  }

  lemma LastDigit(base: nat, m: nat, d: nat, n: nat, e: nat)
    requires d < base && e < base && m * base + d == n * base + e
    ensures m == n && d == e
  {
    QuotientUnique(base, m, d, n, e, m * base, n * base);
  }

  lemma DivMod(n: nat, b: nat) returns (q: nat, r: nat)
    requires b > 0
    ensures q == n / b && r == n % b && r < b && n == q * b + r
  {
    q, r := n / b, n % b;
  }

  lemma Quotient(n: nat, b: nat, q: nat, r: nat)
    requires r < b && n == q * b + r
    ensures n / b == q && n % b == r
  {
    var q', r' := DivMod(n, b);
    QuotientUnique(b, q, r, q', r', q * b, q' * b);
  }

  lemma NumMore(base: nat, ds: seq<nat>, d: nat)
    ensures Num(base, ds + [d]) == Num(base, ds) * base + d
  {
    assert (ds + [d])[..|ds|] == ds;
  }

  lemma PrefixMore(base: nat, ds: seq<nat>, i: nat)
    requires i < |ds|
    ensures Num(base, ds[..i + 1]) == Num(base, ds[..i]) * base + ds[i]
  {
    NumMore(base, ds[..i], ds[i]);
    assert ds[..i] + [ds[i]] == ds[..i + 1];
  }

  lemma {:induction false} PowAdd(j: nat, k: nat)
    ensures Pow2(j + k) == Pow2(j) * Pow2(k)
  {
    if j > 0 {
      PowAdd(j - 1, k);
      Doubled(Pow2(j - 1), Pow2(k), Pow2(j), Pow2(j - 1 + k));
    }
  }

  lemma Doubled(a: nat, b: nat, c: nat, ab: nat)
    requires c == 2 * a && ab == a * b
    ensures 2 * ab == c * b
  {}

  lemma PowConstants()
    ensures Pow2(0) == 1 && Pow2(1) == 2 && Pow2(2) == 4 && Pow2(3) == 8 && Pow2(4) == 16
    ensures Pow2(5) == 32 && Pow2(8) == 256
  {
    assert Pow2(4) == 2 * Pow2(3) && Pow2(5) == 2 * Pow2(4);
    assert Pow2(6) == 2 * Pow2(5) && Pow2(7) == 2 * Pow2(6) && Pow2(8) == 2 * Pow2(7);
  }

  lemma DivDiv(n: nat, a: nat, b: nat, ab: nat)
    requires a > 0 && b > 0 && ab == a * b
    ensures ab > 0 && n / a / b == n / ab
  {
    var q, r := DivMod(n, a);
    var s, t := DivMod(q, b);
    Regroup(s, t, r, a, b, ab);
    Quotient(n, ab, s, t * a + r);
  }

  lemma Regroup(s: nat, t: nat, r: nat, a: nat, b: nat, ab: nat)
    requires r < a && t < b && ab == a * b
    ensures ab > 0 && (s * b + t) * a + r == s * ab + (t * a + r) && t * a + r < ab
  {
    assert (s * b + t) * a == s * b * a + t * a;
    assert s * b * a == s * ab;
    Difference(t, b - t, a);
    AtLeast(b - t, a);
  }

  // ----- the accumulator -----

  lemma ModUnique(w: nat, v: nat, m: nat, q: nat)
    requires m > 0 && v == q * m + w
    ensures v % m == w % m
  {
    var p, r := DivMod(w, m);
    Difference(q, p, m);
    Quotient(v, m, q + p, r);
  }

  // Where the low word's product lands: whole words, and a multiple rp of p below the last p.
  lemma ShiftedWord(w: nat, p: nat, t: nat, wp: nat) returns (a: nat, rp: nat)
    requires p > 0 && t > 0 && WORD == p * t && wp == w * p
    ensures wp == a * WORD + rp && rp % p == 0 && rp + p <= WORD && wp % WORD == rp
  {
    var q, r := DivMod(w, t);
    a := q;
    rp := r * p;
    Scaled(w, q, t, r, p, WORD);
    Room(r, t, p, p - 1, WORD);
    Quotient(wp, WORD, q, rp);
    Quotient(rp, p, r, 0);
  }

  lemma FeedWord(w: nat, n: nat, p: nat, t: nat, d: nat, wp: nat, np: nat)
    requires WORD == p * t && p > 0 && t > 0 && w == n % WORD && d < p && wp == w * p && np == n * p
    ensures wp % WORD % p == 0 && wp % WORD + d == (np + d) % WORD
  {
    var a, rp := ShiftedWord(w, p, t, wp);
    var q, w' := DivMod(n, WORD);
    var mp := WORD * p;
    Scaled(n, q, WORD, w, p, mp);
    Gather(np, q, p, mp, wp, a, rp, d);
  }

  lemma ShiftIs(w: nat, k: nat, wp: nat)
    requires wp == w * Pow2(k)
    ensures ShiftLeft(w, k) == wp % WORD
  {}

  lemma WordSplits(k: nat) returns (t: nat)
    requires k <= 32
    ensures t == Pow2(32 - k) && t > 0 && WORD == Pow2(k) * t
  {
    t := Pow2(32 - k);
    PowAdd(k, 32 - k);
    WordIsPow();
  }

  /** Shifting in k bits keeps the accumulator the low word of the whole number. The shift leaves
      the low k bits zero, so the `|` that follows it adds. */
  lemma Feed(w: nat, n: nat, k: nat, p: nat, d: nat, wp: nat, np: nat)
    requires w == n % WORD && k <= 32 && p == Pow2(k) && d < p && wp == w * p && np == n * p
    ensures ShiftLeft(w, k) % p == 0
    ensures ShiftLeft(w, k) + d == (np + d) % WORD
  {
    ShiftIs(w, k, wp);
    var t := WordSplits(k);
    FeedWord(w, n, p, t, d, wp, np);
  }

  lemma Scaled(n: nat, q: nat, m: nat, r: nat, p: nat, mp: nat)
    requires n == q * m + r && mp == m * p
    ensures n * p == q * mp + r * p
  {
    assert (q * m + r) * p == q * m * p + r * p;
    assert q * m * p == q * (m * p);
  }

  lemma Room(r: nat, t: nat, p: nat, d: nat, m: nat)
    requires r < t && d < p && m == p * t
    ensures r * p + d < m
  {
    Difference(r, t - r, p);
    AtLeast(t - r, p);
  }

  lemma Gather(np: nat, q: nat, p: nat, mp: nat, wp: nat, a: nat, rp: nat, d: nat)
    requires mp == WORD * p && np == q * mp + wp && wp == a * WORD + rp && rp + d < WORD
    ensures (np + d) % WORD == rp + d
  {
    assert q * mp == q * p * WORD;
    Quotient(np + d, WORD, q * p + a, rp + d);
  }

  lemma WordIsPow()
    ensures Pow2(32) == WORD
  {
    PowConstants();
    PowAdd(8, 8);
    PowAdd(16, 16);
  }

  lemma ReadWord(w: nat, n: nat, p: nat, g: nat, t: nat, pg: nat)
    requires p > 0 && g > 0 && pg == p * g && WORD == pg * t && w == n % WORD
    ensures w / p % g == n / p % g
  {
    var q, w' := DivMod(n, WORD);
    var a, r := DivMod(w, p);
    var qt := q * t;
    var high := qt * g;
    Split(n, q, w, p, g, t, a, r, pg, qt, high);
    Quotient(n, p, high + a, r);
    ModUnique(a, high + a, g, qt);
  }

  /** A group of c bits read from the accumulator is the group of the whole number. */
  lemma Read(w: nat, n: nat, j: nat, c: nat, g: nat)
    requires w == n % WORD && j + c <= 32 && g == Pow2(c)
    ensures ShiftRight(w, j) % g == n / Pow2(j) % g
  {
    PowAdd(j, c);
    PowAdd(j + c, 32 - j - c);
    WordIsPow();
    ReadWord(w, n, Pow2(j), g, Pow2(32 - j - c), Pow2(j + c));
  }

  lemma Split(n: nat, q: nat, w: nat, p: nat, g: nat, t: nat, a: nat, r: nat, pg: nat, qt: nat, high: nat)
    requires n == q * WORD + w && pg == p * g && WORD == pg * t && w == a * p + r && qt == q * t && high == qt * g
    ensures n == (high + a) * p + r
  {
    assert q * (pg * t) == qt * pg;
    assert qt * (p * g) == high * p;
    Difference(high, a, p);
  }

  // ----- encoding and decoding -----

  predicate Symbols(s: string) {
    forall i :: 0 <= i < |s| ==> IsSymbol(s[i])
  }

  function Indices(s: string): (ds: seq<nat>)
    requires Symbols(s)
    ensures |ds| == |s| && Below(32, ds)
  {
    seq(|s|, i requires 0 <= i < |s| => Index(s[i]))
  }

  lemma IndicesMore(s: string, d: nat)
    requires Symbols(s) && d < 32
    ensures IsSymbol(Symbol(d)) && Symbols(s + [Symbol(d)]) && Indices(s + [Symbol(d)]) == Indices(s) + [d]
  {}

  lemma Join(x: nat, g: nat, q: nat, r: nat)
    requires g > 0 && q == x / g && r == x % g
    ensures q * g + r == x
  {}

  /** One group more: n / (P * g) and the next digit make n / P. */
  lemma NextGroup(n: nat, bits: nat, c: nat, g: nat)
    requires bits >= c && g == Pow2(c)
    ensures n / Pow2(bits) * g + n / Pow2(bits - c) % g == n / Pow2(bits - c)
  {
    PowAdd(bits - c, c);
    DivDiv(n, Pow2(bits - c), g, Pow2(bits));
    Join(n / Pow2(bits - c), g, n / Pow2(bits), n / Pow2(bits - c) % g);
  }

  /** One more input digit does not change the groups already cut. */
  lemma MoreInput(n: nat, bits: nat, k: nat, p: nat, d: nat)
    requires p == Pow2(k) && d < p
    ensures (n * p + d) / Pow2(bits + k) == n / Pow2(bits)
  {
    PowAdd(k, bits);
    var n' := n * p + d;
    Quotient(n', p, n, d);
    DivDiv(n', p, Pow2(bits), Pow2(bits + k));
  }

  lemma PaddedNumber(n: nat, p: nat, k: nat, np: nat)
    requires p > 0 && k > 0 && p * k == 32 && np == n * k
    ensures np == n / p * 32 + np % 32
  {
    var m, r := DivMod(n, p);
    var rk := r * k;
    Scaled(n, m, p, r, k, 32);
    Room(r, p, k, 0, 32);
    Quotient(np, 32, m, rk);
  }

  lemma WordMod32(n: nat, w: nat, k: nat, np: nat, wk: nat)
    requires w == n % WORD && np == n * k && wk == w * k
    ensures wk % WORD % 32 == np % 32
  {
    var q, w' := DivMod(n, WORD);
    var qk := q * k;
    Scaled(n, q, WORD, w, k, WORD * k);
    Spread32(q, k, qk, np, wk);
    ModUnique(wk, np, 32, qk * (WORD / 32));
    WordThen32(wk);
  }

  lemma WordThen32(x: nat)
    ensures x % WORD % 32 == x % 32
  {
    var a, b := DivMod(x, WORD);
    ModUnique(b, x, 32, a * (WORD / 32));
  }

  lemma Spread32(q: nat, k: nat, qk: nat, np: nat, wk: nat)
    requires qk == q * k && np == q * (WORD * k) + wk
    ensures np == qk * (WORD / 32) * 32 + wk
  {
    assert q * (WORD * k) == qk * WORD;
  }

  lemma LastWord(w: nat, n: nat, p: nat, k: nat, np: nat, wk: nat)
    requires p > 0 && k > 0 && p * k == 32 && w == n % WORD && np == n * k && wk == w * k
    ensures n / p * 32 + wk % WORD % 32 == np
  {
    PaddedNumber(n, p, k, np);
    WordMod32(n, w, k, np, wk);
  }

  /** Zero bits fill the last group. */
  lemma LastGroup(w: nat, n: nat, bits: nat)
    requires w == n % WORD && 0 < bits < 5
    ensures n / Pow2(bits) * 32 + ShiftLeft(w, 5 - bits) % 32 == n * Pow2(5 - bits)
  {
    var k := 5 - bits;
    PowConstants();
    PowAdd(bits, k);
    var wk := w * Pow2(k);
    ShiftIs(w, k, wk);
    LastWord(w, n, Pow2(bits), Pow2(k), n * Pow2(k), wk);
  }

  lemma ByteIn(w: nat, n: nat, bits: nat, b: nat)
    requires w == n % WORD && b < 256
    ensures ShiftLeft(w, 8) + b == (n * 256 + b) % WORD
    ensures (n * 256 + b) / Pow2(bits + 8) == n / Pow2(bits)
  {
    PowConstants();
    Feed(w, n, 8, 256, b, w * 256, n * 256);
    MoreInput(n, bits, 8, 256, b);
  }

  method Encode(buf: seq<Byte>) returns (out: string)
    ensures Symbols(out) && Encodes(buf, Indices(out))
  {
    var bits, value := 0, 0;
    out := "";
    ghost var n := 0;
    var i := 0;
    PowConstants();
    while i < |buf|
      invariant 0 <= i <= |buf| && 0 <= bits < 5 && bits + 5 * |out| == 8 * i
      invariant n == Num(256, buf[..i]) && value == n % WORD
      invariant Symbols(out) && Num(32, Indices(out)) == n / Pow2(bits)
    {
      ByteIn(value, n, bits, buf[i]);
      PrefixMore(256, buf, i);
      value := ShiftLeft(value, 8) + buf[i];
      bits := bits + 8;
      n := n * 256 + buf[i];
      i := i + 1;
      out, bits := Cut(out, bits, value, n);
    }
    assert buf[..|buf|] == buf;
    out := Pad(out, bits, value, n);
  }

  // After the loops: the last group, if one is started, is filled with zero bits.
  method Pad(before: string, bits: nat, value: nat, ghost n: nat) returns (out: string)
    requires bits < 5 && value == n % WORD
    requires Symbols(before) && Num(32, Indices(before)) == n / Pow2(bits)
    ensures |out| == |before| + if bits > 0 then 1 else 0
    ensures Symbols(out) && Num(32, Indices(out)) == n * Pow2(if bits > 0 then 5 - bits else 0)
  {
    out := before;
    if bits > 0 {
      LastGroup(value, n, bits);
      var d := ShiftLeft(value, 5 - bits) % 32;
      IndicesMore(out, d);
      NumMore(32, Indices(out), d);
      out := out + [Symbol(d)];
    } else {
      PowConstants();
    }
  }

  // The inner loop of Encode: every full group goes out.
  method Cut(before: string, had: nat, value: nat, ghost n: nat) returns (out: string, bits: nat)
    requires had <= 12 && value == n % WORD
    requires Symbols(before) && Num(32, Indices(before)) == n / Pow2(had)
    ensures bits < 5 && bits + 5 * |out| == had + 5 * |before|
    ensures Symbols(out) && Num(32, Indices(out)) == n / Pow2(bits)
  {
    out, bits := before, had;
    PowConstants();
    while bits >= 5
      invariant bits <= 12 && bits + 5 * |out| == had + 5 * |before|
      invariant Symbols(out) && Num(32, Indices(out)) == n / Pow2(bits)
    {
      var d := ShiftRight(value, bits - 5) % 32;
      Read(value, n, bits - 5, 5, 32);
      NextGroup(n, bits, 5, 32);
      IndicesMore(out, d);
      NumMore(32, Indices(out), d);
      out := out + [Symbol(d)];
      bits := bits - 5;
    }
  }

  // ----- decoding -----

  function Upper(c: char): char {
    if 'a' <= c <= 'z' then (c as int - 32) as char else c
  }

  /** Upper case, then everything but the symbols dropped. */
  function Clean(s: string): (r: string)
    ensures Symbols(r) && |r| <= |s|
  {
    if s == "" then ""
    else
      var c := Upper(s[|s| - 1]);
      Clean(s[..|s| - 1]) + if IsSymbol(c) then [c] else ""
  }

  lemma SymbolIn(w: nat, n: nat, bits: nat, d: nat)
    requires w == n % WORD && d < 32
    ensures ShiftLeft(w, 5) + d == (n * 32 + d) % WORD
    ensures (n * 32 + d) / Pow2(bits + 5) == n / Pow2(bits)
  {
    PowConstants();
    Feed(w, n, 5, 32, d, w * 32, n * 32);
    MoreInput(n, bits, 5, 32, d);
  }

  /** Every cleaned character has an index, so the error return is never taken. */
  method Decode(str: string) returns (r: Option<seq<Byte>>)
    ensures r.Some? && Decodes(Indices(Clean(str)), r.value)
  {
    var clean := Clean(str);
    var bits, value := 0, 0;
    var out: seq<Byte> := [];
    ghost var n := 0;
    ghost var ds := Indices(clean);
    PowConstants();
    var i := 0;
    while i < |clean|
      invariant 0 <= i <= |clean| && 0 <= bits < 8 && bits + 8 * |out| == 5 * i
      invariant n == Num(32, ds[..i]) && value == n % WORD
      invariant Num(256, out) == n / Pow2(bits)
    {
      var idx := Index(clean[i]);
      SymbolIn(value, n, bits, idx);
      PrefixMore(32, ds, i);
      value := ShiftLeft(value, 5) + idx;
      bits := bits + 5;
      n := n * 32 + idx;
      i := i + 1;
      out, bits := TakeByte(out, bits, value, n);
    }
    assert ds[..|clean|] == ds;
    r := Some(out);
  }

  // The end of Decode's loop body: a full byte goes out.
  method TakeByte(before: seq<Byte>, had: nat, value: nat, ghost n: nat) returns (out: seq<Byte>, bits: nat)
    requires had <= 12 && value == n % WORD && Num(256, before) == n / Pow2(had)
    ensures bits < 8 && bits + 8 * |out| == had + 8 * |before|
    ensures Num(256, out) == n / Pow2(bits)
  {
    out, bits := before, had;
    if bits >= 8 {
      PowConstants();
      var d := ShiftRight(value, bits - 8) % 256;
      Read(value, n, bits - 8, 8, 256);
      NextGroup(n, bits, 8, 256);
      NumMore(256, out, d);
      out := out + [d];
      bits := bits - 8;
    }
  }

  // ----- round trips -----

  lemma {:induction false} CleanSymbols(s: string)
    requires Symbols(s)
    ensures Clean(s) == s
  {
    if s != "" {
      CleanSymbols(s[..|s| - 1]);
      assert s == s[..|s| - 1] + [s[|s| - 1]];
    }
  }

  lemma {:induction false} CleanConcat(a: string, b: string)
    ensures Clean(a + b) == Clean(a) + Clean(b)
    decreases |b|
  {
    if b == "" {
      assert a + b == a;
    } else {
      var front, c := b[..|b| - 1], b[|b| - 1];
      assert (a + b)[..|a + b| - 1] == a + front;
      CleanConcat(a, front);
      Strings.Assoc(Clean(a), Clean(front), if IsSymbol(Upper(c)) then [Upper(c)] else "");
    }
  }

  function Lowered(s: string): string {
    seq(|s|, i requires 0 <= i < |s| => Strings.Lower(s[i]))
  }

  /** Lower case reads as upper case... */
  lemma {:induction false} LowerCaseReads(s: string)
    requires Symbols(s)
    ensures Clean(Lowered(s)) == s
  {
    if s != "" {
      var front, c := s[..|s| - 1], s[|s| - 1];
      LowerCaseReads(front);
      assert Lowered(s)[..|s| - 1] == Lowered(front);
      assert s == front + [c];
    }
  }

  /** ... and a character that is neither a symbol nor a lower-case letter reads as nothing. */
  lemma NoiseDropped(a: string, c: char, b: string)
    requires !IsSymbol(c) && !('a' <= c <= 'z')
    ensures Clean(a + [c] + b) == Clean(a + b)
  {
    CleanConcat(a + [c], b);
    CleanConcat(a, [c]);
    CleanConcat(a, b);
    assert Clean([c]) == "";
  }

  lemma DivExact(a: nat, p: nat)
    requires p > 0
    ensures a * p / p == a
  {
    Quotient(a * p, p, a, 0);
  }

  /** Decoding what was encoded gives the bytes back. */
  lemma DecodeOfEncode(bytes: seq<nat>, ds: seq<nat>, back: seq<nat>)
    requires Below(256, bytes) && Encodes(bytes, ds) && Decodes(ds, back)
    ensures back == bytes
  {
    assert |back| == |bytes|;
    DivExact(Num(256, bytes), Pow2(5 * |ds| - 8 * |bytes|));
    NumUnique(256, back, bytes);
  }

  /** The bits left over fewer than a symbol, and all zero. */
  predicate Canonical(ds: seq<nat>) {
    var left := 5 * |ds| - 8 * (5 * |ds| / 8);
    left < 5 && Num(32, ds) % Pow2(left) == 0
  }

  /** Encoding what was decoded gives the symbols back exactly for canonical input. */
  lemma EncodeOfDecode(ds: seq<nat>, bytes: seq<nat>, back: seq<nat>)
    requires Below(32, ds) && Decodes(ds, bytes) && Encodes(bytes, back)
    ensures back == ds <==> Canonical(ds)
  {
    var left := 5 * |ds| - 8 * |bytes|;
    var q, r := DivMod(Num(32, ds), Pow2(left));
    assert |back| == |ds| <==> left < 5;
    if left < 5 {
      assert Num(32, back) == q * Pow2(left);
      if r == 0 { NumUnique(32, back, ds); }
    }
  }

  method RoundTrip(buf: seq<Byte>) returns (r: Option<seq<Byte>>)
    ensures r == Some(buf)
  {
    var s := Encode(buf);
    r := Decode(s);
    CleanSymbols(s);
    DecodeOfEncode(buf, Indices(s), r.value);
  }
}
