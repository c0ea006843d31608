/** The tamper-evident audit log (src/lib/server/admin/audit.ts): rows chained by hashes, written
    under a mutex by overlapping calls, pruned and verified. SHA-256 is any function; where a
    result needs it not to collide, it is required to be injective. */
module Audit {
  import opened Options
  import J = StableJson
  import Strings

  const AUDIT_LOG_MAX := 5000

  function Zeros(n: nat): string {
    if n == 0 then "" else "0" + Zeros(n - 1)
  }

  /** What the first row chains from. */
  function Genesis(): string {
    Zeros(64)
  }

  datatype Entry = Entry(userId: Option<int>, username: Option<string>, action: string,
                         detail: Option<string>, ip: Option<string>)

  datatype Row = Row(id: nat, entry: Entry, at: int, prevHash: Option<string>, hash: Option<string>)

  type Sha = string -> string

  // ----- the hashed text -----

  function Digit(n: nat): char
    requires n < 10
  {
    ('0' as int + n) as char
  }

  function Digits(n: nat): string {
    if n < 10 then [Digit(n)] else Digits(n / 10) + [Digit(n % 10)]
  }

  function Decimal(n: int): string {
    if n < 0 then "-" + Digits(-n) else Digits(n)
  }

  function OrNull(s: Option<string>): J.Json {
    if s.Some? then J.Str(s.value) else J.Null
  }

  /** What is serialised for a row: its fields in a fixed order, then the previous hash. */
  function Fields(id: nat, e: Entry, at: int, prev: string): seq<J.Json> {
    [J.Num(Decimal(id)), if e.userId.Some? then J.Num(Decimal(e.userId.value)) else J.Null,
     OrNull(e.username), J.Str(e.action), OrNull(e.detail), OrNull(e.ip), J.Num(Decimal(at)), J.Str(prev)]
  }

  /** The text is JSON.stringify of an array of scalars, which the stable printer also prints. */
  function Text(id: nat, e: Entry, at: int, prev: string): string {
    J.StableStringify(J.Arr(Fields(id, e, at, prev)))
  }

  function AuditRowHash(sha: Sha, id: nat, e: Entry, at: int, prev: string): string {
    sha(Text(id, e, at, prev))
  }

  lemma {:induction false} DigitsShape(n: nat)
    ensures Digits(n) != "" && forall k :: 0 <= k < |Digits(n)| ==> '0' <= Digits(n)[k] <= '9'
  {
    if n >= 10 { DigitsShape(n / 10); }
  }

  lemma {:induction false} DigitsInjective(m: nat, n: nat)
    requires Digits(m) == Digits(n)
    ensures m == n
  {
    var s, t := Digits(m), Digits(n);
    assert s[|s| - 1] == Digit(m % 10) && t[|t| - 1] == Digit(n % 10);
    if m >= 10 && n >= 10 {
      assert s[..|s| - 1] == Digits(m / 10) && t[..|t| - 1] == Digits(n / 10);
      DigitsInjective(m / 10, n / 10);
    } else {
      DigitsShape(m / 10);
      DigitsShape(n / 10);
    }
  }

  lemma DecimalShape(n: int)
    ensures J.NumberToken(Decimal(n))
    ensures n < 0 <==> Decimal(n)[0] == '-'
  {
    DigitsShape(if n < 0 then -n else n);
  }

  lemma DecimalInjective(m: int, n: int)
    requires Decimal(m) == Decimal(n)
    ensures m == n
  {
    DecimalShape(m);
    DecimalShape(n);
    if m < 0 {
      assert Decimal(m)[1..] == Digits(-m) && Decimal(n)[1..] == Digits(-n);
      DigitsInjective(-m, -n);
    } else {
      DigitsInjective(m, n);
    }
  }

  lemma FieldsValid(id: nat, e: Entry, at: int, prev: string)
    ensures J.Valid(J.Arr(Fields(id, e, at, prev)))
  {
    DecimalShape(id);
    DecimalShape(at);
    if e.userId.Some? { DecimalShape(e.userId.value); }
  }

  /** Equal texts come from equal fields. */
  lemma TextInjective(i: nat, e: Entry, at: int, p: string, j: nat, f: Entry, bt: int, q: string)
    requires Text(i, e, at, p) == Text(j, f, bt, q)
    ensures i == j && e == f && at == bt && p == q
  {
    var a, b := Fields(i, e, at, p), Fields(j, f, bt, q);
    FieldsValid(i, e, at, p);
    FieldsValid(j, f, bt, q);
    assert J.StableStringify(J.Arr(a)) + "" == J.StableStringify(J.Arr(b)) + "";
    J.Injective(J.Arr(a), J.Arr(b), "", "");
    FieldsEqual(i, e, at, p, j, f, bt, q, a, b);
  }

  lemma FieldsEqual(i: nat, e: Entry, at: int, p: string, j: nat, f: Entry, bt: int, q: string, a: seq<J.Json>, b: seq<J.Json>)
    requires a == Fields(i, e, at, p) && b == Fields(j, f, bt, q)
    requires forall k :: 0 <= k < |a| ==> J.SameValue(a[k], b[k])
    ensures i == j && e == f && at == bt && p == q
  {
    assert J.SameValue(a[0], b[0]) && J.SameValue(a[1], b[1]) && J.SameValue(a[2], b[2]) && J.SameValue(a[3], b[3]);
    assert J.SameValue(a[4], b[4]) && J.SameValue(a[5], b[5]) && J.SameValue(a[6], b[6]) && J.SameValue(a[7], b[7]);
    DecimalInjective(i, j);
    DecimalInjective(at, bt);
    if e.userId.Some? { DecimalInjective(e.userId.value, f.userId.value); }
  }

  // ----- a verified log -----

  function OrGenesis(h: Option<string>): string {
    if h.Some? then h.value else Genesis()
  }

  /** The row carries the hash of its own fields. */
  predicate Intact(sha: Sha, r: Row) {
    r.hash == Some(AuditRowHash(sha, r.id, r.entry, r.at, OrGenesis(r.prevHash)))
  }

  /** Every row is intact and every row but the oldest links to the one before it. */
  predicate Verified(sha: Sha, rows: seq<Row>) {
    && (forall i :: 0 <= i < |rows| ==> Intact(sha, rows[i]))
    && (forall i :: 0 < i < |rows| ==> Linked(rows[i - 1], rows[i]))
  }

  predicate Linked(a: Row, b: Row) {
    b.prevHash == a.hash
  }

  predicate IdsAscend(rows: seq<Row>) {
    forall i, j :: 0 <= i < j < |rows| ==> rows[i].id < rows[j].id
  }

  predicate TimesAscend(rows: seq<Row>) {
    forall i, j :: 0 <= i < j < |rows| ==> rows[i].at < rows[j].at
  }

  ghost predicate Injective(sha: Sha) {
    forall s, t :: sha(s) == sha(t) ==> s == t
  }

  /** Two rows agree on every field that is hashed, and on the hash. */
  predicate SameRow(a: Row, b: Row) {
    a.id == b.id && a.entry == b.entry && a.at == b.at && OrGenesis(a.prevHash) == OrGenesis(b.prevHash) && a.hash == b.hash
  }

  lemma IntactDetermines(sha: Sha, a: Row, b: Row)
    requires Injective(sha) && Intact(sha, a) && Intact(sha, b) && a.hash == b.hash
    ensures SameRow(a, b)
  {
    var p, q := OrGenesis(a.prevHash), OrGenesis(b.prevHash);
    var s, t := Text(a.id, a.entry, a.at, p), Text(b.id, b.entry, b.at, q);
    assert sha(s) == sha(t);
    TextInjective(a.id, a.entry, a.at, p, b.id, b.entry, b.at, q);
  }

  predicate SameRows(a: seq<Row>, b: seq<Row>) {
    |a| == |b| && forall i :: 0 <= i < |a| ==> SameRow(a[i], b[i])
  }

  lemma SameRowsMore(a: seq<Row>, b: seq<Row>, k: nat)
    requires |a| == |b| == k + 1 && SameRows(a[..k], b[..k]) && SameRow(a[k], b[k])
    ensures SameRows(a, b)
  {
    var a', b' := a[..k], b[..k];
    forall i | 0 <= i < k ensures SameRow(a[i], b[i]) { assert SameRow(a'[i], b'[i]); }
  }

  /** The last hash of a verified log determines every row of it. */
  lemma {:induction false} LastHashDetermines(sha: Sha, a: seq<Row>, b: seq<Row>)
    requires Injective(sha) && Verified(sha, a) && Verified(sha, b) && |a| == |b|
    requires a != [] ==> a[|a| - 1].hash == b[|b| - 1].hash
    ensures SameRows(a, b)
    decreases |a|
  {
    if a != [] {
      var k := |a| - 1;
      IntactDetermines(sha, a[k], b[k]);
      if k > 0 { LinksAgree(sha, a, b, k); }
      PrefixVerified(sha, a, k);
      PrefixVerified(sha, b, k);
      LastHashDetermines(sha, a[..k], b[..k]);
      SameRowsMore(a, b, k);
    }
  }

  lemma PrefixVerified(sha: Sha, rows: seq<Row>, k: nat)
    requires Verified(sha, rows) && k <= |rows|
    ensures Verified(sha, rows[..k])
  {
    var kept := rows[..k];
    forall i | 0 < i < k ensures Linked(kept[i - 1], kept[i]) { assert Linked(rows[i - 1], rows[i]); }
  }

  lemma LinksAgree(sha: Sha, a: seq<Row>, b: seq<Row>, k: nat)
    requires Verified(sha, a) && Verified(sha, b) && 0 < k < |a| == |b| && SameRow(a[k], b[k])
    ensures a[k - 1].hash == b[k - 1].hash
  {
    assert Linked(a[k - 1], a[k]) && Linked(b[k - 1], b[k]);
    assert Intact(sha, a[k - 1]) && Intact(sha, b[k - 1]);
  }

  /** Positions of the rows that survive a deletion, in order. */
  predicate Positions(rows: seq<Row>, idx: seq<nat>) {
    && (forall i :: 0 <= i < |idx| ==> idx[i] < |rows|)
    && (forall i, j :: 0 <= i < j < |idx| ==> idx[i] < idx[j])
  }

  function Selected(rows: seq<Row>, idx: seq<nat>): (kept: seq<Row>)
    requires Positions(rows, idx)
    ensures |kept| == |idx| && forall i :: 0 <= i < |idx| ==> kept[i] == rows[idx[i]]
  {
    seq(|idx|, i requires 0 <= i < |idx| => rows[idx[i]])
  }

  predicate Contiguous(idx: seq<nat>) {
    forall i :: 0 < i < |idx| ==> Follows(idx[i - 1], idx[i])
  }

  predicate Follows(i: nat, j: nat) {
    j == i + 1
  }

  lemma GapBreaksLink(sha: Sha, rows: seq<Row>, i: nat, j: nat)
    requires Injective(sha) && Verified(sha, rows) && IdsAscend(rows) && i < j < |rows|
    ensures Linked(rows[i], rows[j]) <==> j == i + 1
  {
    assert Linked(rows[j - 1], rows[j]) && Intact(sha, rows[i]) && Intact(sha, rows[j - 1]);
    if Linked(rows[i], rows[j]) {
      IntactDetermines(sha, rows[i], rows[j - 1]);
    }
  }

  /** Deleting rows from a verified log goes unnoticed exactly when those left are one block. */
  lemma DeletionVerifiesIffContiguous(sha: Sha, rows: seq<Row>, idx: seq<nat>)
    requires Injective(sha) && Verified(sha, rows) && IdsAscend(rows) && Positions(rows, idx)
    ensures Verified(sha, Selected(rows, idx)) <==> Contiguous(idx)
  {
    var kept := Selected(rows, idx);
    forall i | 0 < i < |idx| ensures Linked(kept[i - 1], kept[i]) <==> Follows(idx[i - 1], idx[i]) {
      GapBreaksLink(sha, rows, idx[i - 1], idx[i]);
    }
    forall i | 0 <= i < |idx| ensures Intact(sha, kept[i]) {
      assert Intact(sha, rows[idx[i]]);
    }
  }

  // ----- pruning -----

  /** The rows whose ids are kept, in order. */
  function Pruned(rows: seq<Row>, keep: set<nat>): seq<Row> {
    if rows == [] then []
    else (if rows[0].id in keep then [rows[0]] else []) + Pruned(rows[1..], keep)
  }

  /** An answer of the query for the newest `max` ids; ties in time may be broken either way. */
  predicate Newest(rows: seq<Row>, keep: set<nat>, max: nat) {
    && (forall k :: k in keep ==> exists i :: 0 <= i < |rows| && rows[i].id == k)
    && |keep| == (if |rows| < max then |rows| else max)
    && (forall i, j :: 0 <= i < |rows| && 0 <= j < |rows| && rows[i].id in keep && rows[j].id !in keep ==>
          rows[j].at <= rows[i].at)
  }

  lemma {:induction false} PrunedNone(rows: seq<Row>, keep: set<nat>)
    requires forall i :: 0 <= i < |rows| ==> rows[i].id !in keep
    ensures Pruned(rows, keep) == []
  {
    if rows != [] { PrunedNone(rows[1..], keep); }
  }

  lemma {:induction false} PrunedAll(rows: seq<Row>, keep: set<nat>)
    requires forall i :: 0 <= i < |rows| ==> rows[i].id in keep
    ensures Pruned(rows, keep) == rows
  {
    if rows != [] { PrunedAll(rows[1..], keep); }
  }

  predicate KeptUp(rows: seq<Row>, keep: set<nat>) {
    forall i, j :: 0 <= i < j < |rows| && rows[i].id in keep ==> rows[j].id in keep
  }

  lemma {:induction false} PrunedSuffix(rows: seq<Row>, keep: set<nat>) returns (k: nat)
    requires KeptUp(rows, keep)
    ensures k <= |rows| && Pruned(rows, keep) == rows[k..]
    ensures forall i :: 0 <= i < |rows| ==> (rows[i].id in keep <==> i >= k)
  {
    if rows == [] {
      k := 0;
    } else if rows[0].id in keep {
      forall i | 0 <= i < |rows| ensures rows[i].id in keep { if i > 0 { assert rows[0].id in keep; } }
      PrunedAll(rows, keep);
      k := 0;
    } else {
      var m := PrunedSuffix(rows[1..], keep);
      k := m + 1;
    }
  }

  function Ids(rows: seq<Row>): set<nat> {
    set i | 0 <= i < |rows| :: rows[i].id
  }

  lemma {:induction false} IdsCount(rows: seq<Row>)
    requires IdsAscend(rows)
    ensures |Ids(rows)| == |rows|
  {
    if rows != [] {
      var k := |rows| - 1;
      IdsCount(rows[..k]);
      assert Ids(rows) == Ids(rows[..k]) + {rows[k].id};
      assert rows[k].id !in Ids(rows[..k]);
    }
  }

  lemma KeepIsSuffix(rows: seq<Row>, keep: set<nat>, max: nat, k: nat)
    requires Newest(rows, keep, max) && k <= |rows|
    requires forall i :: 0 <= i < |rows| ==> (rows[i].id in keep <==> i >= k)
    ensures keep == Ids(rows[k..])
  {
    var kept := rows[k..];
    forall x | x in keep ensures x in Ids(kept) {
      var i :| 0 <= i < |rows| && rows[i].id == x;
      assert kept[i - k].id == x;
    }
    forall x | x in Ids(kept) ensures x in keep {
      var i :| 0 <= i < |kept| && kept[i].id == x;
      assert kept[i] == rows[k + i];
    }
  }

  lemma NewestKeptUp(rows: seq<Row>, keep: set<nat>, max: nat)
    requires TimesAscend(rows) && Newest(rows, keep, max)
    ensures KeptUp(rows, keep)
  {
    forall i, j | 0 <= i < j < |rows| && rows[i].id in keep ensures rows[j].id in keep {
      assert rows[i].at < rows[j].at;
    }
  }

  lemma SuffixIds(rows: seq<Row>, k: nat)
    requires IdsAscend(rows) && k <= |rows|
    ensures |Ids(rows[k..])| == |rows| - k
  {
    var kept := rows[k..];
    assert IdsAscend(kept);
    IdsCount(kept);
  }

  /** With times strictly increasing, pruning keeps exactly the last `max` rows. */
  lemma PruneKeepsLast(rows: seq<Row>, keep: set<nat>, max: nat)
    requires IdsAscend(rows) && TimesAscend(rows) && Newest(rows, keep, max)
    ensures Pruned(rows, keep) == rows[if |rows| < max then 0 else |rows| - max..]
  {
    NewestKeptUp(rows, keep, max);
    var k := PrunedSuffix(rows, keep);
    KeepIsSuffix(rows, keep, max, k);
    SuffixIds(rows, k);
  }

  predicate TimesNotDescending(rows: seq<Row>) {
    forall i, j :: 0 <= i < j < |rows| ==> rows[i].at <= rows[j].at
  }

  lemma {:induction false} SubsetFull(a: set<nat>, b: set<nat>)
    requires a <= b && |a| == |b|
    ensures a == b
  {
    if a != {} {
      var x :| x in a;
      SubsetFull(a - {x}, b - {x});
    } else {
      assert |b| == 0;
    }
  }

  // If a row from the cut on were dropped, one before the cut would be kept.
  lemma KeptBeforeCut(rows: seq<Row>, keep: set<nat>, c: nat, j: nat) returns (i: nat)
    requires IdsAscend(rows) && c <= j < |rows| && Newest(rows, keep, |rows| - c) && rows[j].id !in keep
    ensures i < c && rows[i].id in keep
  {
    var kept := rows[c..];
    var late := Ids(kept);
    SuffixIds(rows, c);
    forall m | c <= m < |rows| ensures rows[m].id in late { assert kept[m - c] == rows[m]; }
    if keep <= late { SubsetFull(keep, late); }
    var x :| x in keep && x !in late;
    i :| 0 <= i < |rows| && rows[i].id == x;
  }

  lemma LaterAcrossStep(rows: seq<Row>, c: nat, i: nat, j: nat)
    requires TimesNotDescending(rows) && 0 < c < |rows| && rows[c - 1].at < rows[c].at && i < c <= j < |rows|
    ensures rows[i].at < rows[j].at
  {
    assert i < c - 1 ==> rows[i].at <= rows[c - 1].at;
    assert c < j ==> rows[c].at <= rows[j].at;
  }

  lemma LateRowKept(rows: seq<Row>, keep: set<nat>, c: nat, j: nat)
    requires IdsAscend(rows) && TimesNotDescending(rows) && 0 < c < |rows| && rows[c - 1].at < rows[c].at
    requires Newest(rows, keep, |rows| - c) && c <= j < |rows|
    ensures rows[j].id in keep
  {
    if rows[j].id !in keep {
      var i := KeptBeforeCut(rows, keep, c, j);
      LaterAcrossStep(rows, c, i, j);
      assert false;
    }
  }

  /** With a step in time at the cut, the query can only answer with the rows after it. */
  lemma StepAtCutKeepsLast(rows: seq<Row>, keep: set<nat>, c: nat)
    requires IdsAscend(rows) && TimesNotDescending(rows) && 0 < c < |rows| && rows[c - 1].at < rows[c].at
    requires Newest(rows, keep, |rows| - c)
    ensures Pruned(rows, keep) == rows[c..]
  {
    forall j | c <= j < |rows| ensures rows[j].id in keep {
      LateRowKept(rows, keep, c, j);
    }
    LateKeepIsSuffix(rows, keep, c);
  }

  lemma LateKeepIsSuffix(rows: seq<Row>, keep: set<nat>, c: nat)
    requires IdsAscend(rows) && c <= |rows| && |keep| == |rows| - c
    requires forall j :: c <= j < |rows| ==> rows[j].id in keep
    ensures Pruned(rows, keep) == rows[c..]
  {
    var late := Ids(rows[c..]);
    SuffixIds(rows, c);
    assert late <= keep;
    SubsetFull(late, keep);
    forall i | 0 <= i < c ensures rows[i].id !in keep {
      forall j | c <= j < |rows| ensures rows[i].id != rows[j].id { assert rows[i].id < rows[j].id; }
    }
    PrunedFrom(rows, keep, c);
  }

  lemma {:induction false} PrunedFrom(rows: seq<Row>, keep: set<nat>, c: nat)
    requires c <= |rows| && (forall i :: 0 <= i < c ==> rows[i].id !in keep)
    requires forall j :: c <= j < |rows| ==> rows[j].id in keep
    ensures Pruned(rows, keep) == rows[c..]
  {
    if c == 0 {
      PrunedAll(rows, keep);
    } else {
      PrunedFrom(rows[1..], keep, c - 1);
    }
  }

  /** The answer that keeps the row before the cut instead of the one after it. */
  function Swapped(rows: seq<Row>, c: nat): set<nat>
    requires 0 < c < |rows|
  {
    Ids(rows[c + 1..]) + {rows[c - 1].id}
  }

  lemma InSwapped(rows: seq<Row>, c: nat, i: nat)
    requires IdsAscend(rows) && 0 < c < |rows| && i < |rows|
    ensures rows[i].id in Swapped(rows, c) <==> (i == c - 1 || i > c)
  {
    var late := rows[c + 1..];
    if i > c { assert late[i - c - 1].id == rows[i].id; }
    if rows[i].id in Ids(late) {
      var k :| 0 <= k < |late| && late[k].id == rows[i].id;
      assert late[k] == rows[k + c + 1];
    }
  }

  lemma SwappedIsNewest(rows: seq<Row>, c: nat)
    requires IdsAscend(rows) && TimesNotDescending(rows) && 0 < c < |rows| && rows[c - 1].at == rows[c].at
    ensures Newest(rows, Swapped(rows, c), |rows| - c)
  {
    var keep := Swapped(rows, c);
    forall i | 0 <= i < |rows| ensures rows[i].id in keep <==> (i == c - 1 || i > c) { InSwapped(rows, c, i); }
    SuffixIds(rows, c + 1);
    assert rows[c - 1].id !in Ids(rows[c + 1..]) by {
      forall k | c + 1 <= k < |rows| ensures rows[c - 1].id != rows[k].id {}
    }
    forall x | x in keep ensures exists i :: 0 <= i < |rows| && rows[i].id == x {
      if x != rows[c - 1].id {
        var k :| 0 <= k < |rows[c + 1..]| && rows[c + 1..][k].id == x;
        assert rows[k + c + 1].id == x;
      }
    }
    forall i, j | 0 <= i < |rows| && 0 <= j < |rows| && rows[i].id in keep && rows[j].id !in keep
      ensures rows[j].at <= rows[i].at
    {
      assert j < c ==> rows[j].at <= rows[c].at;
      assert c < i ==> rows[c].at <= rows[i].at;
    }
  }

  lemma {:induction false} PrunedSwapped(rows: seq<Row>, keep: set<nat>, c: nat)
    requires 0 < c < |rows|
    requires forall i :: 0 <= i < |rows| ==> (rows[i].id in keep <==> (i == c - 1 || i > c))
    ensures Pruned(rows, keep) == [rows[c - 1]] + rows[c + 1..]
  {
    var rest := rows[1..];
    if c > 1 {
      PrunedSwapped(rest, keep, c - 1);
      assert rest[c - 2] == rows[c - 1] && rest[c..] == rows[c + 1..];
    } else {
      forall i | 0 <= i < |rest| ensures rest[i].id in keep <==> i >= 1 { assert rest[i] == rows[i + 1]; }
      PrunedFrom(rest, keep, 1);
      assert rest[1..] == rows[2..];
    }
  }

  /** With a tie at the cut, some answer leaves a gap that verification notices. */
  lemma TieAtCutBreaks(sha: Sha, rows: seq<Row>, c: nat)
    requires Injective(sha) && Verified(sha, rows) && IdsAscend(rows) && 0 < c && c + 1 < |rows|
    ensures !Verified(sha, Pruned(rows, Swapped(rows, c)))
  {
    forall i | 0 <= i < |rows| ensures rows[i].id in Swapped(rows, c) <==> (i == c - 1 || i > c) { InSwapped(rows, c, i); }
    PrunedSwapped(rows, Swapped(rows, c), c);
    GapBreaksLink(sha, rows, c - 1, c + 1);
    var kept := Pruned(rows, Swapped(rows, c));
    assert kept[0] == rows[c - 1] && kept[1] == rows[c + 1];
  }

  /** Every answer of the query leaves a log that verifies. */
  ghost predicate PruneAlwaysVerifies(sha: Sha, rows: seq<Row>, max: nat) {
    forall keep :: Newest(rows, keep, max) ==> Verified(sha, Pruned(rows, keep))
  }

  lemma StepAtCutVerifies(sha: Sha, rows: seq<Row>, c: nat)
    requires Verified(sha, rows) && IdsAscend(rows) && TimesNotDescending(rows)
    requires 0 < c < |rows| && rows[c - 1].at < rows[c].at
    ensures PruneAlwaysVerifies(sha, rows, |rows| - c)
  {
    forall keep | Newest(rows, keep, |rows| - c) ensures Verified(sha, Pruned(rows, keep)) {
      StepAtCutKeepsLast(rows, keep, c);
      SuffixVerified(sha, rows, c);
    }
  }

  /** A prune to `max` rows keeps the log verifying, whichever way the query breaks ties, exactly
      when the oldest row it should keep is later than the newest it should drop. */
  lemma PruneVerifiesIffNoTieAtCut(sha: Sha, rows: seq<Row>, max: nat)
    requires Injective(sha) && Verified(sha, rows) && IdsAscend(rows) && TimesNotDescending(rows) && 2 <= max < |rows|
    ensures PruneAlwaysVerifies(sha, rows, max) <==> rows[|rows| - max - 1].at < rows[|rows| - max].at
  {
    var c := |rows| - max;
    assert rows[c - 1].at <= rows[c].at;
    if rows[c - 1].at < rows[c].at {
      StepAtCutVerifies(sha, rows, c);
    } else {
      SwappedIsNewest(rows, c);
      TieAtCutBreaks(sha, rows, c);
      assert Newest(rows, Swapped(rows, c), max);
    }
  }

  // ----- the store -----

  function HeadHash(rows: seq<Row>): string {
    if rows == [] then Genesis() else OrGenesis(rows[|rows| - 1].hash)
  }

  function Hashed(sha: Sha, rows: seq<Row>, id: nat, hash: string): seq<Row> {
    seq(|rows|, i requires 0 <= i < |rows| => if rows[i].id == id then rows[i].(hash := Some(hash)) else rows[i])
  }

  /** The row a completed write adds. */
  function Chained(sha: Sha, id: nat, e: Entry, at: int, prev: string): Row {
    Row(id, e, at, Some(prev), Some(AuditRowHash(sha, id, e, at, prev)))
  }

  class AuditStore {
    const sha: Sha
    var rows: seq<Row>
    var nextId: nat

    ghost predicate Valid()
      reads this
    {
      IdsAscend(rows) && forall i :: 0 <= i < |rows| ==> rows[i].id < nextId
    }

    constructor (sha: Sha)
      ensures Valid() && this.sha == sha && rows == []
    {
      this.sha := sha;
      rows, nextId := [], 1;
    }

    method WriteEntry(entry: Entry, now: int)
      requires Valid()
      modifies this
      ensures Valid() && nextId == old(nextId) + 1
      ensures rows == old(rows) + [Chained(sha, old(nextId), entry, now, HeadHash(old(rows)))]
    {
      var prevHash := HeadHash(rows);
      var id := nextId;
      rows, nextId := rows + [Row(id, entry, now, Some(prevHash), None)], nextId + 1;
      var hash := AuditRowHash(sha, id, entry, now, prevHash);
      rows := Hashed(sha, rows, id, hash);
    }

    /** Walks the chain and stops at the first row that is not linked or not intact. */
    method Verify() returns (ok: bool, checked: nat, firstBadId: Option<nat>)
      ensures ok <==> Verified(sha, rows)
      ensures ok ==> checked == |rows| && firstBadId.None?
      ensures !ok ==> 1 <= checked <= |rows| && firstBadId == Some(rows[checked - 1].id)
      ensures !ok ==> Verified(sha, rows[..checked - 1]) && !Verified(sha, rows[..checked])
    {
      var prev: Option<string> := None;
      var i := 0;
      while i < |rows|
        invariant 0 <= i <= |rows| && Verified(sha, rows[..i])
        invariant prev == if i == 0 then None else rows[i - 1].hash
        invariant prev.None? <==> i == 0
      {
        var row := rows[i];
        var linked := prev.None? || row.prevHash == prev;
        var intact := row.hash.Some?
          && row.hash.value == AuditRowHash(sha, row.id, row.entry, row.at, OrGenesis(row.prevHash));
        if !linked || !intact {
          BadRow(sha, rows, i);
          return false, i + 1, Some(row.id);
        }
        GoodRow(sha, rows, i);
        prev := row.hash;
        i := i + 1;
      }
      assert rows[..|rows|] == rows;
      return true, |rows|, None;
    }

    /** `keep` is the answer of the query for the newest rows. */
    method Prune(keep: set<nat>)
      requires Valid() && Newest(rows, keep, AUDIT_LOG_MAX)
      modifies this`rows
      ensures rows == Pruned(old(rows), keep)
    {
      if keep == {} {
        PrunedNone(rows, keep);
        rows := [];
      } else {
        rows := Pruned(rows, keep);
      }
    }
  }

  lemma VerifiedMore(sha: Sha, rows: seq<Row>, row: Row)
    requires Verified(sha, rows) && Intact(sha, row)
    requires rows != [] ==> Linked(rows[|rows| - 1], row)
    ensures Verified(sha, rows + [row])
  {
    var more := rows + [row];
    forall i | 0 < i < |more| ensures Linked(more[i - 1], more[i]) {
      if i < |rows| { assert Linked(rows[i - 1], rows[i]); }
    }
  }

  lemma GoodRow(sha: Sha, rows: seq<Row>, i: nat)
    requires i < |rows| && Verified(sha, rows[..i]) && Intact(sha, rows[i])
    requires i > 0 ==> Linked(rows[i - 1], rows[i])
    ensures Verified(sha, rows[..i + 1])
  {
    VerifiedMore(sha, rows[..i], rows[i]);
    assert rows[..i] + [rows[i]] == rows[..i + 1];
  }

  lemma BadRow(sha: Sha, rows: seq<Row>, i: nat)
    requires i < |rows| && (!Intact(sha, rows[i]) || (i > 0 && !Linked(rows[i - 1], rows[i])))
    ensures !Verified(sha, rows[..i + 1]) && !Verified(sha, rows)
  {
    var more := rows[..i + 1];
    assert more[i] == rows[i];
    if i > 0 { assert more[i - 1] == rows[i - 1]; }
  }

  // ----- overlapping calls -----

  datatype Call = Call(entry: Entry, at: int)

  /** The call that holds the mutex: it has read the head, or inserted its row without a hash. */
  datatype Writer = Resting | HasHead(call: Call, prev: string) | HasRow(call: Call, prev: string, id: nat)

  datatype State = State(rows: seq<Row>, nextId: nat, waiting: seq<Call>, writer: Writer)

  datatype Step =
    | Log(call: Call)            // a call joins the queue of the mutex
    | ReadHead
    | Insert
    | Abandon                    // the insert failed; the call resolves without a row
    | SetHash
    | LoseHash                   // the update failed; the row stays without a hash
    | Prune(keep: set<nat>)      // at any moment, as one step

  /** When each row was or will be logged: the table, the writer, then the queue. */
  function Times(s: State): seq<int> {
    RowTimes(s.rows) + (if s.writer.HasHead? then [s.writer.call.at] else []) + CallTimes(s.waiting)
  }

  function RowTimes(rows: seq<Row>): seq<int> {
    seq(|rows|, i requires 0 <= i < |rows| => rows[i].at)
  }

  function CallTimes(calls: seq<Call>): seq<int> {
    seq(|calls|, i requires 0 <= i < |calls| => calls[i].at)
  }

  predicate Ascending(ts: seq<int>) {
    forall i, j :: 0 <= i < j < |ts| ==> ts[i] < ts[j]
  }

  /** Calls come at strictly increasing times. */
  predicate Enabled(s: State, e: Step) {
    match e
    case Log(call) => forall i :: 0 <= i < |Times(s)| ==> Times(s)[i] < call.at
    case ReadHead => s.writer.Resting? && s.waiting != []
    case Insert => s.writer.HasHead?
    case Abandon => s.writer.HasHead?
    case SetHash => s.writer.HasRow?
    case LoseHash => s.writer.HasRow?
    case Prune(keep) => Newest(s.rows, keep, AUDIT_LOG_MAX)
  }

  function Do(sha: Sha, s: State, e: Step): State
    requires Enabled(s, e)
  {
    match e
    case Log(call) => s.(waiting := s.waiting + [call])
    case ReadHead => s.(waiting := s.waiting[1..], writer := HasHead(s.waiting[0], HeadHash(s.rows)))
    case Insert =>
      var c := s.writer.call;
      s.(rows := s.rows + [Row(s.nextId, c.entry, c.at, Some(s.writer.prev), None)], nextId := s.nextId + 1,
         writer := HasRow(c, s.writer.prev, s.nextId))
    case Abandon => s.(writer := Resting)
    case SetHash =>
      var w := s.writer;
      s.(rows := Hashed(sha, s.rows, w.id, AuditRowHash(sha, w.id, w.call.entry, w.call.at, w.prev)), writer := Resting)
    case LoseHash => s.(writer := Resting)
    case Prune(keep) => s.(rows := Pruned(s.rows, keep))
  }

  /** The row of the call in flight is the last, without a hash. */
  predicate Unhashed(s: State) {
    && s.writer.HasRow? && s.rows != []
    && s.rows[|s.rows| - 1] == Row(s.writer.id, s.writer.call.entry, s.writer.call.at, Some(s.writer.prev), None)
  }

  predicate Ordered(s: State) {
    && IdsAscend(s.rows) && (forall i :: 0 <= i < |s.rows| ==> s.rows[i].id < s.nextId)
    && Ascending(Times(s))
  }

  /** A row with a hash is intact, and the row after it links to it. */
  predicate ChainSound(sha: Sha, rows: seq<Row>) {
    && (forall i :: 0 <= i < |rows| ==> SoundRow(sha, rows[i]))
    && (forall i :: 0 < i < |rows| ==> LinkedIfHashed(rows[i - 1], rows[i]))
  }

  predicate SoundRow(sha: Sha, r: Row) {
    r.hash.Some? ==> Intact(sha, r)
  }

  predicate LinkedIfHashed(a: Row, b: Row) {
    a.hash.Some? ==> Linked(a, b)
  }

  predicate WriterSound(s: State) {
    && (s.writer.HasRow? ==> Unhashed(s))
    && (s.writer.HasHead? && s.rows != [] && s.rows[|s.rows| - 1].hash.Some? ==>
          s.rows[|s.rows| - 1].hash == Some(s.writer.prev))
  }

  predicate Sound(sha: Sha, s: State) {
    Ordered(s) && ChainSound(sha, s.rows) && WriterSound(s)
  }

  lemma ChainMore(sha: Sha, rows: seq<Row>, row: Row)
    requires ChainSound(sha, rows) && SoundRow(sha, row)
    requires rows != [] ==> LinkedIfHashed(rows[|rows| - 1], row)
    ensures ChainSound(sha, rows + [row])
  {
    var more := rows + [row];
    forall i | 0 < i < |more| ensures LinkedIfHashed(more[i - 1], more[i]) {
      if i < |rows| { assert LinkedIfHashed(rows[i - 1], rows[i]); }
    }
  }

  lemma ChainPrefix(sha: Sha, rows: seq<Row>, k: nat)
    requires ChainSound(sha, rows) && k <= |rows|
    ensures ChainSound(sha, rows[..k])
  {
    var some := rows[..k];
    forall i | 0 < i < k ensures LinkedIfHashed(some[i - 1], some[i]) { assert LinkedIfHashed(rows[i - 1], rows[i]); }
  }

  lemma ChainSuffix(sha: Sha, rows: seq<Row>, k: nat)
    requires ChainSound(sha, rows) && k <= |rows|
    ensures ChainSound(sha, rows[k..])
  {
    var kept := rows[k..];
    forall i | 0 < i < |kept| ensures LinkedIfHashed(kept[i - 1], kept[i]) {
      assert LinkedIfHashed(rows[k + i - 1], rows[k + i]);
    }
  }

  predicate AllHashed(rows: seq<Row>) {
    forall i :: 0 <= i < |rows| ==> rows[i].hash.Some?
  }

  lemma SoundVerifiesIffHashed(sha: Sha, rows: seq<Row>)
    requires ChainSound(sha, rows)
    ensures Verified(sha, rows) <==> AllHashed(rows)
  {
    if AllHashed(rows) {
      forall i | 0 <= i < |rows| ensures Intact(sha, rows[i]) { assert SoundRow(sha, rows[i]); }
      forall i | 0 < i < |rows| ensures Linked(rows[i - 1], rows[i]) { assert LinkedIfHashed(rows[i - 1], rows[i]); }
    } else {
      var i :| 0 <= i < |rows| && rows[i].hash.None?;
      assert !Intact(sha, rows[i]);
    }
  }

  lemma AscendingMore(ts: seq<int>, t: int)
    requires Ascending(ts) && forall i :: 0 <= i < |ts| ==> ts[i] < t
    ensures Ascending(ts + [t])
  {}

  lemma AscendingWithout(r: seq<int>, x: int, w: seq<int>)
    requires Ascending(r + [x] + w)
    ensures Ascending(r + w)
  {
    var ts, us := r + [x] + w, r + w;
    forall i, j | 0 <= i < j < |us| ensures us[i] < us[j] {
      var i', j' := if i < |r| then i else i + 1, if j < |r| then j else j + 1;
      assert ts[i'] == us[i] && ts[j'] == us[j];
    }
  }

  lemma AscendingFrom(ts: seq<int>, k: nat)
    requires Ascending(ts) && k <= |ts|
    ensures Ascending(ts[k..])
  {}

  lemma LogTimes(sha: Sha, s: State, call: Call)
    requires Enabled(s, Log(call))
    ensures Times(Do(sha, s, Log(call))) == Times(s) + [call.at]
  {
    var s' := Do(sha, s, Log(call));
    assert CallTimes(s'.waiting) == CallTimes(s.waiting) + [call.at];
  }

  lemma LogOrdered(sha: Sha, s: State, call: Call)
    requires Ordered(s) && Enabled(s, Log(call))
    ensures Ordered(Do(sha, s, Log(call)))
  {
    LogTimes(sha, s, call);
    AscendingMore(Times(s), call.at);
  }

  lemma LogKeeps(sha: Sha, s: State, call: Call)
    requires Sound(sha, s) && Enabled(s, Log(call))
    ensures Sound(sha, Do(sha, s, Log(call)))
  {
    LogOrdered(sha, s, call);
  }

  lemma ReadHeadOrdered(sha: Sha, s: State)
    requires Ordered(s) && Enabled(s, ReadHead)
    ensures Ordered(Do(sha, s, ReadHead))
  {
    var s' := Do(sha, s, ReadHead);
    assert CallTimes(s.waiting) == [s.waiting[0].at] + CallTimes(s'.waiting);
    assert Times(s') == Times(s);
  }

  lemma ReadHeadKeeps(sha: Sha, s: State)
    requires Sound(sha, s) && Enabled(s, ReadHead)
    ensures Sound(sha, Do(sha, s, ReadHead))
  {
    ReadHeadOrdered(sha, s);
  }

  lemma InsertOrdered(sha: Sha, s: State)
    requires Ordered(s) && Enabled(s, Insert)
    ensures Ordered(Do(sha, s, Insert))
  {
    var s' := Do(sha, s, Insert);
    assert RowTimes(s'.rows) == RowTimes(s.rows) + [s.writer.call.at];
    assert Times(s') == Times(s);
  }

  lemma InsertKeeps(sha: Sha, s: State)
    requires Sound(sha, s) && Enabled(s, Insert)
    ensures Sound(sha, Do(sha, s, Insert))
  {
    InsertOrdered(sha, s);
    var c := s.writer.call;
    ChainMore(sha, s.rows, Row(s.nextId, c.entry, c.at, Some(s.writer.prev), None));
  }

  lemma AbandonKeeps(sha: Sha, s: State)
    requires Sound(sha, s) && Enabled(s, Abandon)
    ensures Sound(sha, Do(sha, s, Abandon))
  {
    var s' := Do(sha, s, Abandon);
    assert Times(s') == RowTimes(s.rows) + CallTimes(s.waiting);
    AscendingWithout(RowTimes(s.rows), s.writer.call.at, CallTimes(s.waiting));
  }

  lemma LastHashed(sha: Sha, s: State) returns (row: Row)
    requires Ordered(s) && Unhashed(s)
    ensures row == Chained(sha, s.writer.id, s.writer.call.entry, s.writer.call.at, s.writer.prev)
    ensures Do(sha, s, SetHash).rows == s.rows[..|s.rows| - 1] + [row]
  {
    var w := s.writer;
    row := Chained(sha, w.id, w.call.entry, w.call.at, w.prev);
  }

  lemma SetHashOrdered(sha: Sha, s: State)
    requires Sound(sha, s) && Enabled(s, SetHash)
    ensures Ordered(Do(sha, s, SetHash))
  {
    var s' := Do(sha, s, SetHash);
    assert RowTimes(s'.rows) == RowTimes(s.rows);
    assert Times(s') == Times(s);
  }

  lemma SetHashKeeps(sha: Sha, s: State)
    requires Sound(sha, s) && Enabled(s, SetHash)
    ensures Sound(sha, Do(sha, s, SetHash))
  {
    SetHashOrdered(sha, s);
    var row := LastHashed(sha, s);
    var k := |s.rows| - 1;
    ChainPrefix(sha, s.rows, k);
    if k > 0 { assert LinkedIfHashed(s.rows[k - 1], s.rows[k]); }
    ChainMore(sha, s.rows[..k], row);
  }

  lemma LoseHashKeeps(sha: Sha, s: State)
    requires Sound(sha, s) && Enabled(s, LoseHash)
    ensures Sound(sha, Do(sha, s, LoseHash))
  {
    assert Times(Do(sha, s, LoseHash)) == Times(s);
  }

  lemma SuffixVerified(sha: Sha, rows: seq<Row>, k: nat)
    requires Verified(sha, rows) && k <= |rows|
    ensures Verified(sha, rows[k..])
  {
    var kept := rows[k..];
    forall i | 0 < i < |kept| ensures Linked(kept[i - 1], kept[i]) {
      assert Linked(rows[k + i - 1], rows[k + i]);
    }
  }

  lemma PruneCuts(sha: Sha, s: State, keep: set<nat>) returns (k: nat)
    requires Ordered(s) && Enabled(s, Prune(keep))
    ensures k <= |s.rows| && (s.rows != [] ==> k < |s.rows|) && Do(sha, s, Prune(keep)) == s.(rows := s.rows[k..])
  {
    forall i, j | 0 <= i < j < |s.rows| ensures s.rows[i].at < s.rows[j].at {
      assert Times(s)[i] == s.rows[i].at && Times(s)[j] == s.rows[j].at;
    }
    PruneKeepsLast(s.rows, keep, AUDIT_LOG_MAX);
    k := if |s.rows| < AUDIT_LOG_MAX then 0 else |s.rows| - AUDIT_LOG_MAX;
  }

  lemma PruneKeeps(sha: Sha, s: State, keep: set<nat>)
    requires Sound(sha, s) && Enabled(s, Prune(keep))
    ensures Sound(sha, Do(sha, s, Prune(keep)))
  {
    var k := PruneCuts(sha, s, keep);
    CutKeeps(sha, s, Do(sha, s, Prune(keep)), k);
  }

  lemma CutOrdered(s: State, s': State, k: nat)
    requires Ordered(s) && k <= |s.rows| && s' == s.(rows := s.rows[k..])
    ensures Ordered(s')
  {
    assert RowTimes(s'.rows) == RowTimes(s.rows)[k..];
    assert Times(s') == Times(s)[k..];
    AscendingFrom(Times(s), k);
  }

  lemma CutKeeps(sha: Sha, s: State, s': State, k: nat)
    requires Sound(sha, s) && k <= |s.rows| && s' == s.(rows := s.rows[k..]) && (s.rows != [] ==> k < |s.rows|)
    ensures Sound(sha, s')
  {
    CutOrdered(s, s', k);
    ChainSuffix(sha, s.rows, k);
  }

  lemma StepKeeps(sha: Sha, s: State, e: Step)
    requires Sound(sha, s) && Enabled(s, e)
    ensures Sound(sha, Do(sha, s, e))
  {
    match e
    case Log(call) => LogKeeps(sha, s, call);
    case ReadHead => ReadHeadKeeps(sha, s);
    case Insert => InsertKeeps(sha, s);
    case Abandon => AbandonKeeps(sha, s);
    case SetHash => SetHashKeeps(sha, s);
    case LoseHash => LoseHashKeeps(sha, s);
    case Prune(keep) => PruneKeeps(sha, s, keep);
  }

  ghost predicate ValidRun(sha: Sha, s: State, run: seq<Step>)
    decreases |run|
  {
    run == [] || (Enabled(s, run[0]) && ValidRun(sha, Do(sha, s, run[0]), run[1..]))
  }

  ghost function After(sha: Sha, s: State, run: seq<Step>): State
    requires ValidRun(sha, s, run)
    decreases |run|
  {
    if run == [] then s else After(sha, Do(sha, s, run[0]), run[1..])
  }

  lemma {:induction false} RunKeeps(sha: Sha, s: State, run: seq<Step>)
    requires Sound(sha, s) && ValidRun(sha, s, run)
    ensures Sound(sha, After(sha, s, run))
    decreases |run|
  {
    if run != [] {
      StepKeeps(sha, s, run[0]);
      RunKeeps(sha, Do(sha, s, run[0]), run[1..]);
    }
  }

  const EMPTY := State([], 1, [], Resting)

  lemma EmptySound(sha: Sha)
    ensures Sound(sha, EMPTY)
  {
    assert Times(EMPTY) == [];
  }

  /** For any overlapping calls at strictly increasing times, with inserts and updates that fail and
      prunes at any moment, the log verifies exactly when every row left has its hash: a row whose
      update failed spoils it until a prune drops that row. */
  lemma LogsVerifyIffHashed(sha: Sha, run: seq<Step>)
    requires ValidRun(sha, EMPTY, run)
    ensures var s := After(sha, EMPTY, run); Verified(sha, s.rows) <==> AllHashed(s.rows)
  {
    EmptySound(sha);
    RunKeeps(sha, EMPTY, run);
    SoundVerifiesIffHashed(sha, After(sha, EMPTY, run).rows);
  }

  /** Only the row in flight lacks its hash. */
  predicate OnlyInFlight(s: State) {
    forall i :: 0 <= i < |s.rows| && s.rows[i].hash.None? ==> s.writer.HasRow? && i == |s.rows| - 1
  }

  lemma StepOnlyInFlight(sha: Sha, s: State, e: Step)
    requires Sound(sha, s) && OnlyInFlight(s) && Enabled(s, e) && !e.LoseHash?
    ensures OnlyInFlight(Do(sha, s, e))
  {
    if e.Prune? {
      var k := PruneCuts(sha, s, e.keep);
    } else if e.SetHash? {
      var row := LastHashed(sha, s);
    }
  }

  lemma {:induction false} RunOnlyInFlight(sha: Sha, s: State, run: seq<Step>)
    requires Sound(sha, s) && OnlyInFlight(s) && ValidRun(sha, s, run)
    requires forall i :: 0 <= i < |run| ==> !run[i].LoseHash?
    ensures OnlyInFlight(After(sha, s, run)) && Sound(sha, After(sha, s, run))
    decreases |run|
  {
    if run != [] {
      StepKeeps(sha, s, run[0]);
      StepOnlyInFlight(sha, s, run[0]);
      RunOnlyInFlight(sha, Do(sha, s, run[0]), run[1..]);
    }
  }

  /** While no update fails, the log verifies exactly when no call is between its insert and its
      hash. */
  lemma LogsVerify(sha: Sha, run: seq<Step>)
    requires ValidRun(sha, EMPTY, run) && forall i :: 0 <= i < |run| ==> !run[i].LoseHash?
    ensures var s := After(sha, EMPTY, run); Verified(sha, s.rows) <==> !s.writer.HasRow?
  {
    EmptySound(sha);
    RunOnlyInFlight(sha, EMPTY, run);
    LogsVerifyIffHashed(sha, run);
  }

  // ----- nothing logged is lost or reordered -----

  function CallsIn(rows: seq<Row>): seq<Call> {
    seq(|rows|, i requires 0 <= i < |rows| => Call(rows[i].entry, rows[i].at))
  }

  /** Every call that has a row, is about to get one, or waits, in this order. */
  function Held(s: State): seq<Call> {
    CallsIn(s.rows) + ((if s.writer.HasHead? then [s.writer.call] else []) + s.waiting)
  }

  /** The calls made in a run. */
  function Made(run: seq<Step>): seq<Call> {
    if run == [] then [] else (if run[0].Log? then [run[0].call] else []) + Made(run[1..])
  }

  lemma CallsInMore(rows: seq<Row>, row: Row)
    ensures CallsIn(rows + [row]) == CallsIn(rows) + [Call(row.entry, row.at)]
  {}

  lemma HashedCalls(sha: Sha, rows: seq<Row>, id: nat, hash: string)
    ensures CallsIn(Hashed(sha, rows, id, hash)) == CallsIn(rows)
  {}

  /** Neither an insert that fails nor a prune. */
  predicate Keeping(e: Step) {
    !e.Abandon? && !e.Prune?
  }

  lemma StepHolds(sha: Sha, s: State, e: Step)
    requires Enabled(s, e) && Keeping(e)
    ensures Held(Do(sha, s, e)) == Held(s) + if e.Log? then [e.call] else []
  {
    var s' := Do(sha, s, e);
    match e
    case Log(call) =>
      Strings.Assoc(if s.writer.HasHead? then [s.writer.call] else [], s.waiting, [call]);
      Strings.Assoc(CallsIn(s.rows), (if s.writer.HasHead? then [s.writer.call] else []) + s.waiting, [call]);
    case ReadHead =>
      assert [] + s.waiting == [s.waiting[0]] + s.waiting[1..];
    case Insert =>
      var c := s.writer.call;
      CallsInMore(s.rows, Row(s.nextId, c.entry, c.at, Some(s.writer.prev), None));
      Strings.Assoc(CallsIn(s.rows), [c], s.waiting);
      assert [] + s.waiting == s.waiting;
    case SetHash =>
      HashedCalls(sha, s.rows, s.writer.id, AuditRowHash(sha, s.writer.id, s.writer.call.entry, s.writer.call.at, s.writer.prev));
    case LoseHash =>
  }

  lemma {:induction false} RunHolds(sha: Sha, s: State, run: seq<Step>)
    requires ValidRun(sha, s, run) && forall i :: 0 <= i < |run| ==> Keeping(run[i])
    ensures Held(After(sha, s, run)) == Held(s) + Made(run)
    decreases |run|
  {
    if run == [] {
      assert Held(s) + [] == Held(s);
    } else {
      StepHolds(sha, s, run[0]);
      RunHolds(sha, Do(sha, s, run[0]), run[1..]);
      Strings.Assoc(Held(s), if run[0].Log? then [run[0].call] else [], Made(run[1..]));
    }
  }

  /** While no insert fails and nothing is pruned, the rows, the call about to be inserted and the
      waiting calls are exactly the calls made, in order, whatever overlaps. */
  lemma CallsLoggedInOrder(sha: Sha, run: seq<Step>)
    requires ValidRun(sha, EMPTY, run) && forall i :: 0 <= i < |run| ==> Keeping(run[i])
    ensures Held(After(sha, EMPTY, run)) == Made(run)
  {
    RunHolds(sha, EMPTY, run);
    assert Held(EMPTY) == [];
    assert [] + Made(run) == Made(run);
  }

  /** From rest a write that succeeds is what `WriteEntry` does in one go. */
  lemma WriteStepsAddRow(sha: Sha, s: State)
    requires Sound(sha, s) && s.writer.Resting? && s.waiting != []
    ensures var run := [ReadHead, Insert, SetHash];
            && ValidRun(sha, s, run)
            && After(sha, s, run)
            == State(s.rows + [Chained(sha, s.nextId, s.waiting[0].entry, s.waiting[0].at, HeadHash(s.rows))],
                     s.nextId + 1, s.waiting[1..], Resting)
  {
    var c, prev := s.waiting[0], HeadHash(s.rows);
    var s1 := Do(sha, s, ReadHead);
    var s2 := Do(sha, s1, Insert);
    var s3 := Do(sha, s2, SetHash);
    var hash := AuditRowHash(sha, s.nextId, c.entry, c.at, prev);
    var row := Row(s.nextId, c.entry, c.at, Some(prev), None);
    assert s3.rows == Hashed(sha, s.rows + [row], s.nextId, hash);
    assert Hashed(sha, s.rows + [row], s.nextId, hash) == s.rows + [row.(hash := Some(hash))];
    RunThree(sha, s, ReadHead, Insert, SetHash);
  }

  lemma RunThree(sha: Sha, s: State, a: Step, b: Step, c: Step)
    requires Enabled(s, a) && Enabled(Do(sha, s, a), b) && Enabled(Do(sha, Do(sha, s, a), b), c)
    ensures ValidRun(sha, s, [a, b, c]) && After(sha, s, [a, b, c]) == Do(sha, Do(sha, Do(sha, s, a), b), c)
  {
    var s1 := Do(sha, s, a);
    var s2 := Do(sha, s1, b);
    assert [a, b, c][1..] == [b, c] && [b, c][1..] == [c] && [c][1..] == [];
    assert ValidRun(sha, s2, [c]) && After(sha, s2, [c]) == Do(sha, s2, c);
    assert ValidRun(sha, s1, [b, c]) && After(sha, s1, [b, c]) == After(sha, s2, [c]);
  }
}
