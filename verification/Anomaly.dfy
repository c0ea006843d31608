/** Anomaly detection over rolling baselines (src/lib/server/anomaly/engine.ts): scoring, one open
    row per metric, and alerts with a cooldown. Times are in milliseconds, floats are reals, and
    one `observe` runs to its end before the next begins. */
module Anomaly {
  import opened Options
  import opened Ewma
  import opened Strings

  datatype Severity = Info | Warn | Alert

  datatype Direction = Both | Up

  const MIN_SAMPLES := 30
  const COOLDOWN := 30 * 60_000
  const ALPHA := 0.1
  const EPSILON := 0.01
  const WARN_Z := 3.0
  const ALERT_Z := 4.0
  const DETAIL_MAX := 4096
  const BASELINE_MAX := 2000
  const WINDOW_N_CAP := 240
  const LAST_ALERT_MAX := 1024
  const DAY_MS := 86_400_000.0

  function Rank(s: Severity): nat {
    match s
    case Info => 0
    case Warn => 1
    case Alert => 2
  }

  // ----- metric names -----

  predicate AlphaNumeric(c: char) {
    'a' <= c <= 'z' || 'A' <= c <= 'Z' || '0' <= c <= '9'
  }

  predicate ValidMetric(m: string) {
    && 2 <= |m| <= 128
    && AlphaNumeric(m[0])
    && forall i :: 1 <= i < |m| ==> AlphaNumeric(m[i]) || m[i] == '.' || m[i] == '_' || m[i] == ':' || m[i] == '-'
  }

  predicate OccursAt(word: string, m: string, i: nat) {
    i + |word| <= |m| && forall k :: 0 <= k < |word| ==> Lower(m[i + k]) == word[k]
  }

  predicate Occurs(word: string, m: string) {
    exists i :: 0 <= i <= |m| && OccursAt(word, m, i)
  }

  /** The words the spike-only pattern spells out. */
  const SPIKE_WORDS := ["_per_hour", ".per_hour", "_per_min", ".per_min", "_per_sec", ".per_sec",
                        "failures", "flaps", "errors"]

  function MetricDirection(m: string): Direction {
    if exists k :: 0 <= k < |SPIKE_WORDS| && Occurs(SPIKE_WORDS[k], m) then Up else Both
  }

  // ----- scoring -----

  ghost predicate IsSqrt(sqrt: real -> real) {
    forall x: real :: x > 0.0 ==> sqrt(x) > 0.0 && sqrt(x) * sqrt(x) == x
  }

  function ZScore(sqrt: real -> real, value: real, mean: real, variance: real): real
    requires IsSqrt(sqrt) && variance >= 0.0
  {
    (value - mean) / sqrt(variance + EPSILON)
  }

  function Abs(x: real): real {
    if x < 0.0 then -x else x
  }

  function Classify(z: real, n: nat, minSamples: nat, direction: Direction): Option<Severity> {
    if n < minSamples then None
    else if direction == Up && z < 0.0 then None
    else if Abs(z) >= ALERT_Z then Some(Alert)
    else if Abs(z) >= WARN_Z then Some(Warn)
    else None
  }

  /** Whether value is at least k standard deviations from the mean, without a square root. */
  predicate Deviates(value: real, mean: real, variance: real, k: real) {
    (value - mean) * (value - mean) >= k * k * (variance + EPSILON)
  }

  lemma SquaresOrder(a: real, b: real)
    requires a >= 0.0 && b >= 0.0
    ensures a >= b <==> a * a >= b * b
  {
    if a >= b { SquareAtLeast(a, b); } else { SquareAbove(b, a); }
  }

  lemma SquareAtLeast(a: real, b: real)
    requires 0.0 <= b <= a
    ensures a * a >= b * b
  {
    NonNegative(a - b, a + b);
    assert (a - b) * (a + b) == a * a - b * b;
  }

  lemma SquareAbove(a: real, b: real)
    requires 0.0 <= b < a
    ensures a * a > b * b
  {
    Positive(a - b, a + b);
    assert (a - b) * (a + b) == a * a - b * b;
  }

  lemma Positive(a: real, b: real)
    requires a > 0.0 && b > 0.0
    ensures a * b > 0.0
  {}

  lemma ScoreDeviates(sqrt: real -> real, value: real, mean: real, variance: real, k: real)
    requires IsSqrt(sqrt) && variance >= 0.0 && k >= 0.0
    ensures Abs(ZScore(sqrt, value, mean, variance)) >= k <==> Deviates(value, mean, variance, k)
    ensures ZScore(sqrt, value, mean, variance) < 0.0 <==> value < mean
  {
    var root, d := sqrt(variance + EPSILON), value - mean;
    Quotient(d, root, ZScore(sqrt, value, mean, variance), k);
    SquaresOrder(Abs(d), k * root);
    assert Abs(d) * Abs(d) == d * d;
    Scale(k, root, variance + EPSILON);
  }

  lemma Scale(k: real, root: real, v: real)
    requires root * root == v
    ensures (k * root) * (k * root) == k * k * v
  {}

  lemma Quotient(d: real, root: real, z: real, k: real)
    requires root > 0.0 && z == d / root && k >= 0.0
    ensures Abs(z) >= k <==> Abs(d) >= k * root
    ensures z < 0.0 <==> d < 0.0
    ensures k * root >= 0.0
  {
    assert z * root == d;
    assert Abs(d) == Abs(z) * root;
    Monotone(Abs(z), k, root);
  }

  lemma Monotone(a: real, b: real, c: real)
    requires c > 0.0
    ensures a >= b <==> a * c >= b * c
    ensures b >= 0.0 ==> b * c >= 0.0
  {
    assert (a - b) * c == a * c - b * c;
  }

  /** A severity in terms of the squared deviation: never for a young baseline, never below the
      mean for a spike-only metric, alert from four and warn from three standard deviations. */
  lemma ClassifiedByDeviation(sqrt: real -> real, value: real, mean: real, variance: real, n: nat, direction: Direction)
    requires IsSqrt(sqrt) && variance >= 0.0
    ensures var severity := Classify(ZScore(sqrt, value, mean, variance), n, MIN_SAMPLES, direction);
            var counted := n >= MIN_SAMPLES && (direction == Up ==> value >= mean);
            && (severity == Some(Alert) <==> counted && Deviates(value, mean, variance, ALERT_Z))
            && (severity.Some? <==> counted && Deviates(value, mean, variance, WARN_Z))
            && severity != Some(Info)
  {
    ScoreDeviates(sqrt, value, mean, variance, ALERT_Z);
    ScoreDeviates(sqrt, value, mean, variance, WARN_Z);
  }

  // ----- the engine's state -----

  datatype BaselineRow = BaselineRow(baseline: Baseline, windowN: nat, updatedAt: int)

  datatype Row = Row(id: nat, metric: string, value: real, expected: real, z: real, severity: Severity,
                     detail: Option<string>, createdAt: int, ackedAt: Option<int>, ackedBy: Option<string>)

  /** The two tables, the ids handed out, and the engine's memory; `sent` lists the rows passed to
      the alert hook. */
  datatype State = State(baselines: map<string, BaselineRow>, baselineCount: int,
                         rows: seq<Row>, nextId: nat,
                         wired: bool, lastAlert: map<string, int>, sent: seq<Row>)

  /** The newest unacknowledged row of a metric created after `since`. */
  function OpenRow(rows: seq<Row>, metric: string, since: int): Option<Row> {
    if rows == [] then None
    else
      var last := rows[|rows| - 1];
      if last.metric == metric && last.ackedAt.None? && last.createdAt > since then Some(last)
      else OpenRow(rows[..|rows| - 1], metric, since)
  }

  function Cut(s: string, n: nat): string {
    if |s| > n then s[..n] else s
  }

  function BoundedDetail(detail: Option<string>): Option<string> {
    if detail.Some? then Some(Cut(detail.value, DETAIL_MAX)) else None
  }

  function Evicted(last: map<string, int>, now: int): map<string, int> {
    map k | k in last && now - last[k] < COOLDOWN :: last[k]
  }

  /** `maybeAlert`; with evict = false, the same without ever dropping an entry. */
  function Alerted(s: State, row: Row, now: int, evict: bool): State {
    if row.severity != Alert || !s.wired then s
    else
      var last := if evict && |s.lastAlert| > LAST_ALERT_MAX then Evicted(s.lastAlert, now) else s.lastAlert;
      if row.metric in last && now - last[row.metric] < COOLDOWN then s.(lastAlert := last)
      else s.(lastAlert := last[row.metric := now], sent := s.sent + [row])
  }

  function NewRow(s: State, metric: string, value: real, expected: real, z: real, severity: Severity,
                  detail: Option<string>, now: int): Row
  {
    Row(s.nextId, metric, value, expected, z, severity, BoundedDetail(detail), now, None, None)
  }

  predicate Suppressed(rows: seq<Row>, metric: string, severity: Severity, now: int) {
    var open := OpenRow(rows, metric, now - COOLDOWN);
    open.Some? && Rank(open.value.severity) >= Rank(severity)
  }

  /** Write a row unless an open one ranks as high, and maybe alert. */
  function Recorded(s: State, row: Row, now: int, evict: bool): (State, Option<Row>) {
    if Suppressed(s.rows, row.metric, row.severity, now) then (s, None)
    else (Alerted(s.(rows := s.rows + [row], nextId := s.nextId + 1), row, now, evict), Some(row))
  }

  function Counted(s: State): int {
    if s.baselineCount < 0 then |s.baselines| else s.baselineCount
  }

  predicate Sound(b: Baseline) {
    b.n > 0 && b.variance >= 0.0
  }

  ghost predicate SoundBaselines(baselines: map<string, BaselineRow>) {
    forall m :: m in baselines ==> Sound(baselines[m].baseline)
  }

  function Previous(s: State, metric: string): Option<Baseline> {
    if metric in s.baselines then Some(s.baselines[metric].baseline) else None
  }

  function ScoreOf(sqrt: real -> real, prev: Option<Baseline>, value: real): real
    requires IsSqrt(sqrt) && (prev.Some? ==> Sound(prev.value))
  {
    if prev.Some? then ZScore(sqrt, value, prev.value.mean, prev.value.variance) else 0.0
  }

  function Expected(prev: Option<Baseline>, value: real): real {
    if prev.Some? then prev.value.mean else value
  }

  function Severe(z: real, prev: Option<Baseline>, metric: string): Option<Severity> {
    Classify(z, if prev.Some? then prev.value.n else 0, MIN_SAMPLES, MetricDirection(metric))
  }

  /** The state with the baseline folded in. */
  function Folded(s: State, metric: string, value: real, now: int): State {
    var next := EwmaUpdate(Previous(s, metric), value, ALPHA);
    var windowN := if next.n < WINDOW_N_CAP then next.n else WINDOW_N_CAP;
    s.(baselines := s.baselines[metric := BaselineRow(next, windowN, now)],
       baselineCount := if metric in s.baselines then s.baselineCount else Counted(s) + 1)
  }

  /** Whether an observation is taken at all: a well-formed name, a finite value (None stands for
      the others), and a known metric or room for one more. */
  predicate Taken(s: State, metric: string, value: Option<real>) {
    ValidMetric(metric) && value.Some? && (metric in s.baselines || Counted(s) < BASELINE_MAX)
  }

  function NotTaken(s: State, metric: string, value: Option<real>): State {
    if ValidMetric(metric) && value.Some? then s.(baselineCount := Counted(s)) else s
  }

  function Observed(sqrt: real -> real, s: State, metric: string, value: Option<real>, now: int,
                    detail: Option<string>, evict: bool): (State, Option<Row>)
    requires IsSqrt(sqrt) && SoundBaselines(s.baselines)
  {
    if !Taken(s, metric, value) then (NotTaken(s, metric, value), None)
    else
      var prev := Previous(s, metric);
      var z := ScoreOf(sqrt, prev, value.value);
      var severity := Severe(z, prev, metric);
      var s' := Folded(s, metric, value.value, now);
      if severity.None? then (s', None)
      else
        Recorded(s', NewRow(s', metric, value.value, Expected(prev, value.value), z, severity.value, detail, now), now, evict)
  }

  function AckRow(row: Row, id: int, user: string, now: int): Row {
    if row.id == id && row.ackedAt.None? then row.(ackedAt := Some(now), ackedBy := Some(Cut(user, 100))) else row
  }

  function AckRows(rows: seq<Row>, id: int, user: string, now: int): seq<Row> {
    seq(|rows|, i requires 0 <= i < |rows| => AckRow(rows[i], id, user, now))
  }

  function Kept(rows: seq<Row>, before: real): seq<Row> {
    if rows == [] then []
    else Kept(rows[..|rows| - 1], before) + (if (rows[|rows| - 1].createdAt as real) < before then [] else [rows[|rows| - 1]])
  }

  lemma FoldedSound(s: State, metric: string, value: real, now: int)
    requires SoundBaselines(s.baselines)
    ensures SoundBaselines(Folded(s, metric, value, now).baselines)
  {
    if metric in s.baselines {
      var b := s.baselines[metric].baseline;
      NextVariance(b.variance, value - b.mean);
    }
  }

  lemma NextVariance(v: real, d: real)
    requires v >= 0.0
    ensures (1.0 - ALPHA) * (v + ALPHA * d * d) >= 0.0
  {
    SquareNonNegative(d);
    assert ALPHA * d * d == ALPHA * (d * d);
  }

  class AnomalyEngine {
    const sqrt: real -> real
    var baselines: map<string, BaselineRow>
    var baselineCount: int
    var rows: seq<Row>
    var nextId: nat
    var wired: bool
    var lastAlert: map<string, int>
    var sent: seq<Row>

    ghost predicate Valid()
      reads this
    {
      IsSqrt(sqrt) && SoundBaselines(baselines)
    }

    ghost function Model(): State
      reads this
    {
      State(baselines, baselineCount, rows, nextId, wired, lastAlert, sent)
    }

    /** Over tables that may already hold rows of an earlier process. */
    constructor (sqrt: real -> real, baselines: map<string, BaselineRow>, rows: seq<Row>, nextId: nat)
      requires IsSqrt(sqrt) && SoundBaselines(baselines)
      ensures Valid() && this.sqrt == sqrt
      ensures Model() == State(baselines, -1, rows, nextId, false, map[], [])
    {
      this.sqrt, this.baselines, this.rows, this.nextId := sqrt, baselines, rows, nextId;
      baselineCount, wired, lastAlert, sent := -1, false, map[], [];
    }

    method Observe(metric: string, value: Option<real>, now: int, detail: Option<string>) returns (row: Option<Row>)
      requires Valid()
      modifies this
      ensures Valid()
      ensures (Model(), row) == Observed(sqrt, old(Model()), metric, value, now, detail, true)
    {
      if !ValidMetric(metric) || value.None? { return None; }
      ghost var before := Model();
      var prev: Option<Baseline> := None;
      if metric in baselines {
        prev := Some(baselines[metric].baseline);
      } else {
        var admitted := AdmitBaseline();
        if !admitted { return None; }
      }
      var expected := if prev.Some? then prev.value.mean else value.value;
      var z := if prev.Some? then ZScore(sqrt, value.value, expected, prev.value.variance) else 0.0;
      var severity := Classify(z, if prev.Some? then prev.value.n else 0, MIN_SAMPLES, MetricDirection(metric));
      var next := EwmaUpdate(prev, value.value, ALPHA);
      FoldedSound(before, metric, value.value, now);
      baselines := baselines[metric := BaselineRow(next, if next.n < WINDOW_N_CAP then next.n else WINDOW_N_CAP, now)];
      assert Model() == Folded(before, metric, value.value, now);
      if severity.None? { return None; }
      row := Record(Row(nextId, metric, value.value, expected, z, severity.value, BoundedDetail(detail), now, None, None), now);
    }

    /** The last part of observe: one open row per metric, unless the severity rises. */
    method Record(r: Row, now: int) returns (row: Option<Row>)
      requires Valid()
      modifies this`rows, this`nextId, this`lastAlert, this`sent
      ensures (Model(), row) == Recorded(old(Model()), r, now, true)
    {
      var open := OpenRow(rows, r.metric, now - COOLDOWN);
      if open.Some? && Rank(open.value.severity) >= Rank(r.severity) { return None; }
      rows, nextId := rows + [r], nextId + 1;
      MaybeAlert(r, now);
      row := Some(r);
    }

    method AdmitBaseline() returns (ok: bool)
      requires Valid()
      modifies this`baselineCount
      ensures ok == (Counted(old(Model())) < BASELINE_MAX)
      ensures baselineCount == Counted(old(Model())) + if ok then 1 else 0
    {
      if baselineCount < 0 { baselineCount := |baselines|; }
      if baselineCount >= BASELINE_MAX { return false; }
      baselineCount := baselineCount + 1;
      ok := true;
    }

    method MaybeAlert(a: Row, now: int)
      requires Valid()
      modifies this`lastAlert, this`sent
      ensures Model() == Alerted(old(Model()), a, now, true)
    {
      if a.severity != Alert || !wired { return; }
      if |lastAlert| > LAST_ALERT_MAX {
        EvictOld(now);
      }
      if a.metric in lastAlert && now - lastAlert[a.metric] < COOLDOWN { return; }
      lastAlert := lastAlert[a.metric := now];
      sent := sent + [a];
    }

    // The entries are visited in an arbitrary order and dropped on the way.
    method EvictOld(now: int)
      modifies this`lastAlert
      ensures lastAlert == Evicted(old(lastAlert), now)
    {
      var keys := lastAlert.Keys;
      while keys != {}
        invariant keys <= lastAlert.Keys <= old(lastAlert).Keys
        invariant forall k :: k in lastAlert ==> lastAlert[k] == old(lastAlert)[k]
        invariant forall k :: k in old(lastAlert) && k !in keys ==>
                    (k in lastAlert <==> now - old(lastAlert)[k] < COOLDOWN)
        decreases |keys|
      {
        var k :| k in keys;
        if now - lastAlert[k] >= COOLDOWN {
          lastAlert := lastAlert - {k};
        }
        keys := keys - {k};
      }
    }

    method Ack(id: int, user: string, now: int) returns (row: Option<Row>)
      requires Valid()
      modifies this`rows
      ensures Model() == old(Model()).(rows := if id <= 0 then old(rows) else AckRows(old(rows), id, user, now))
      ensures row.Some? ==> id > 0 && row.value in rows && row.value.id == id
      ensures row.None? && id > 0 ==> forall i :: 0 <= i < |rows| ==> rows[i].id != id
    {
      if id <= 0 { return None; }
      rows := AckRows(rows, id, user, now);
      row := None;
      for i := 0 to |rows|
        invariant row.None? ==> forall k :: 0 <= k < i ==> rows[k].id != id
        invariant row.Some? ==> row.value in rows && row.value.id == id
      {
        if row.None? && rows[i].id == id { row := Some(rows[i]); }
      }
    }

    method Prune(days: real, now: int) returns (removed: nat)
      requires Valid()
      modifies this`rows
      ensures Model() == old(Model()).(rows := if days <= 0.0 then old(rows) else Kept(old(rows), now as real - days * DAY_MS))
      ensures removed == |old(rows)| - |rows|
    {
      if days <= 0.0 { return 0; }
      var before := |rows|;
      rows := Kept(rows, now as real - days * DAY_MS);
      ghost var idx := KeptByPosition(old(rows), now as real - days * DAY_MS);
      removed := before - |rows|;
    }
  }

  /** The positions idx of rows pick out kept, in order. */
  ghost predicate Picks(rows: seq<Row>, idx: seq<nat>, kept: seq<Row>) {
    && |idx| == |kept| <= |rows|
    && (forall i :: 0 <= i < |idx| ==> idx[i] < |rows| && kept[i] == rows[idx[i]])
    && (forall i, j :: 0 <= i < j < |idx| ==> idx[i] < idx[j])
  }

  lemma PicksMore(rows: seq<Row>, last: Row, idx: seq<nat>, kept: seq<Row>)
    requires Picks(rows, idx, kept)
    ensures Picks(rows + [last], idx, kept) && Picks(rows + [last], idx + [|rows|], kept + [last])
  {}

  /** Pruning keeps a sub-sequence of the rows, in order. */
  lemma {:induction false} KeptByPosition(rows: seq<Row>, before: real) returns (idx: seq<nat>)
    ensures Picks(rows, idx, Kept(rows, before))
  {
    if rows == [] {
      idx := [];
    } else {
      var init, last := rows[..|rows| - 1], rows[|rows| - 1];
      assert init + [last] == rows;
      idx := KeptByPosition(init, before);
      PicksMore(init, last, idx, Kept(init, before));
      if (last.createdAt as real) >= before { idx := idx + [|init|]; }
    }
  }

  /** Pruning drops exactly the older rows. */
  lemma {:induction false} KeptIffRecent(rows: seq<Row>, before: real, row: Row)
    ensures row in Kept(rows, before) <==> row in rows && row.createdAt as real >= before
  {
    if rows != [] {
      KeptIffRecent(rows[..|rows| - 1], before, row);
      assert rows == rows[..|rows| - 1] + [rows[|rows| - 1]];
    }
  }

  // ----- runs -----

  /** Observations carry the time they were made; acknowledging and pruning may use any clock. */
  datatype Event =
    | Observation(metric: string, value: Option<real>, detail: Option<string>, at: int)
    | Acked(id: int, user: string, now: int)
    | Pruned(days: real, now: int)
    | Wired

  ghost function Step(sqrt: real -> real, s: State, e: Event, evict: bool): (r: State)
    requires IsSqrt(sqrt) && SoundBaselines(s.baselines)
    ensures SoundBaselines(r.baselines)
  {
    match e
    case Observation(metric, value, detail, at) =>
      ObservedSound(sqrt, s, metric, value, at, detail, evict);
      Observed(sqrt, s, metric, value, at, detail, evict).0
    case Acked(id, user, now) => if id <= 0 then s else s.(rows := AckRows(s.rows, id, user, now))
    case Pruned(days, now) => if days <= 0.0 then s else s.(rows := Kept(s.rows, now as real - days * DAY_MS))
    case Wired => s.(wired := true)
  }

  lemma ObservedSound(sqrt: real -> real, s: State, metric: string, value: Option<real>, now: int,
                      detail: Option<string>, evict: bool)
    requires IsSqrt(sqrt) && SoundBaselines(s.baselines)
    ensures SoundBaselines(Observed(sqrt, s, metric, value, now, detail, evict).0.baselines)
  {
    if Taken(s, metric, value) { FoldedSound(s, metric, value.value, now); }
  }

  ghost function After(sqrt: real -> real, s: State, run: seq<Event>, evict: bool): (r: State)
    requires IsSqrt(sqrt) && SoundBaselines(s.baselines)
    ensures SoundBaselines(r.baselines)
    decreases |run|
  {
    if run == [] then s else After(sqrt, Step(sqrt, s, run[0], evict), run[1..], evict)
  }

  function Clock(clock: int, e: Event): int {
    if e.Observation? then e.at else clock
  }

  /** Observations come at non-decreasing times, none before `clock`. */
  predicate InOrder(clock: int, run: seq<Event>)
    decreases |run|
  {
    run == [] || (clock <= Clock(clock, run[0]) && InOrder(Clock(clock, run[0]), run[1..]))
  }

  // An observation is one of: nothing but bookkeeping of baselines, or a row that may be recorded.
  lemma ObservedCases(sqrt: real -> real, s: State, metric: string, value: Option<real>, now: int,
                      detail: Option<string>, evict: bool) returns (s': State, row: Option<Row>)
    requires IsSqrt(sqrt) && SoundBaselines(s.baselines)
    ensures s' == s.(baselines := s'.baselines, baselineCount := s'.baselineCount)
    ensures row.Some? ==> && row.value.metric == metric && row.value.createdAt == now
                          && row.value.ackedAt.None? && row.value.severity != Info
    ensures Observed(sqrt, s, metric, value, now, detail, evict)
         == if row.Some? then Recorded(s', row.value, now, evict) else (s', None)
  {
    if !Taken(s, metric, value) {
      s', row := NotTaken(s, metric, value), None;
    } else {
      var prev := Previous(s, metric);
      var z := ScoreOf(sqrt, prev, value.value);
      var severity := Severe(z, prev, metric);
      s' := Folded(s, metric, value.value, now);
      row := None;
      if severity.Some? {
        row := Some(NewRow(s', metric, value.value, Expected(prev, value.value), z, severity.value, detail, now));
      }
    }
  }

  // ----- open rows escalate -----

  predicate Open(row: Row, metric: string, since: int) {
    row.metric == metric && row.ackedAt.None? && row.createdAt > since
  }

  lemma {:induction false} OpenRowIsNewest(rows: seq<Row>, metric: string, since: int) returns (k: int)
    ensures -1 <= k < |rows|
    ensures forall i :: k < i < |rows| ==> !Open(rows[i], metric, since)
    ensures k >= 0 ==> Open(rows[k], metric, since) && OpenRow(rows, metric, since) == Some(rows[k])
    ensures k == -1 ==> OpenRow(rows, metric, since).None?
  {
    if rows == [] {
      k := -1;
    } else if Open(rows[|rows| - 1], metric, since) {
      k := |rows| - 1;
    } else {
      k := OpenRowIsNewest(rows[..|rows| - 1], metric, since);
    }
  }

  predicate Chronological(rows: seq<Row>, clock: int) {
    && (forall i, j :: 0 <= i < j < |rows| ==> rows[i].createdAt <= rows[j].createdAt)
    && (forall i :: 0 <= i < |rows| ==> rows[i].createdAt <= clock && rows[i].severity != Info)
  }

  /** Of two unacknowledged rows of one metric less than a cooldown apart, the later ranks higher. */
  predicate Escalating(rows: seq<Row>) {
    forall i, j :: 0 <= i < j < |rows| ==> Escalates(rows[i], rows[j])
  }

  predicate Escalates(a: Row, b: Row) {
    a.metric == b.metric && a.ackedAt.None? && b.ackedAt.None? && b.createdAt - a.createdAt < COOLDOWN
    ==> Rank(a.severity) < Rank(b.severity)
  }

  /** A row that observe would write now. */
  predicate Fresh(row: Row, metric: string, now: int) {
    row.metric == metric && row.createdAt == now && row.ackedAt.None?
  }

  /** No row open at `now` outranks the newest open one. */
  predicate NewestRanksHighest(rows: seq<Row>, metric: string, now: int) {
    forall i :: 0 <= i < |rows| && Open(rows[i], metric, now - COOLDOWN) ==>
                  Suppressed(rows, metric, rows[i].severity, now)
  }

  ghost predicate FreshRowsEscalate(rows: seq<Row>, metric: string, now: int) {
    forall row: Row :: Fresh(row, metric, now) && !Suppressed(rows, metric, row.severity, now) ==> Escalating(rows + [row])
  }

  lemma FreshRowEscalates(rows: seq<Row>, row: Row, now: int)
    requires Escalating(rows) && Fresh(row, row.metric, now) && NewestRanksHighest(rows, row.metric, now)
    requires !Suppressed(rows, row.metric, row.severity, now)
    ensures Escalating(rows + [row])
  {
    var k := OpenRowIsNewest(rows, row.metric, now - COOLDOWN);
    forall i | 0 <= i < |rows| ensures Escalates(rows[i], row) {
      assert Open(rows[i], row.metric, now - COOLDOWN) ==> Suppressed(rows, row.metric, rows[i].severity, now);
    }
  }

  lemma OutrankedBreaks(rows: seq<Row>, metric: string, now: int, i: nat)
    requires i < |rows| && Open(rows[i], metric, now - COOLDOWN) && !Suppressed(rows, metric, rows[i].severity, now)
    ensures !FreshRowsEscalate(rows, metric, now)
  {
    var row := rows[i].(createdAt := now);
    assert !Escalates((rows + [row])[i], (rows + [row])[|rows|]);
    assert Fresh(row, metric, now) && !Escalating(rows + [row]);
  }

  /** Whatever row comes next, whatever the times: the table goes on escalating exactly when no
      open row outranks the newest open one. */
  lemma FreshRowsEscalateIff(rows: seq<Row>, metric: string, now: int)
    requires Escalating(rows)
    ensures FreshRowsEscalate(rows, metric, now) <==> NewestRanksHighest(rows, metric, now)
  {
    if NewestRanksHighest(rows, metric, now) {
      forall row: Row | Fresh(row, metric, now) && !Suppressed(rows, metric, row.severity, now)
        ensures Escalating(rows + [row])
      {
        FreshRowEscalates(rows, row, now);
      }
    } else {
      var i :| 0 <= i < |rows| && Open(rows[i], metric, now - COOLDOWN) && !Suppressed(rows, metric, rows[i].severity, now);
      OutrankedBreaks(rows, metric, now, i);
    }
  }

  /** In a table in order of time the newest open row ranks highest. */
  lemma OrderedNewestRanksHighest(rows: seq<Row>, metric: string, now: int)
    requires Chronological(rows, now) && Escalating(rows)
    ensures NewestRanksHighest(rows, metric, now)
  {
    var k := OpenRowIsNewest(rows, metric, now - COOLDOWN);
    forall i | 0 <= i < |rows| && Open(rows[i], metric, now - COOLDOWN)
      ensures Suppressed(rows, metric, rows[i].severity, now)
    {
      if i < k { assert Escalates(rows[i], rows[k]); }
    }
  }

  lemma RowAddedEscalates(rows: seq<Row>, row: Row, now: int)
    requires Chronological(rows, now) && Escalating(rows)
    requires row.createdAt == now && row.ackedAt.None? && row.severity != Info
    requires !Suppressed(rows, row.metric, row.severity, now)
    ensures Chronological(rows + [row], now) && Escalating(rows + [row])
  {
    OrderedNewestRanksHighest(rows, row.metric, now);
    FreshRowsEscalateIff(rows, row.metric, now);
  }

  lemma PruneEscalates(rows: seq<Row>, before: real, clock: int)
    requires Chronological(rows, clock) && Escalating(rows)
    ensures Chronological(Kept(rows, before), clock) && Escalating(Kept(rows, before))
  {
    var idx := KeptByPosition(rows, before);
    var kept := Kept(rows, before);
    forall i, j | 0 <= i < j < |kept| ensures Escalates(kept[i], kept[j]) && kept[i].createdAt <= kept[j].createdAt {
      assert kept[i] == rows[idx[i]] && kept[j] == rows[idx[j]] && idx[i] < idx[j];
    }
  }

  lemma AckEscalates(rows: seq<Row>, id: int, user: string, now: int, clock: int)
    requires Chronological(rows, clock) && Escalating(rows)
    ensures Chronological(AckRows(rows, id, user, now), clock) && Escalating(AckRows(rows, id, user, now))
  {
    var acked := AckRows(rows, id, user, now);
    forall i, j | 0 <= i < j < |rows| ensures Escalates(acked[i], acked[j]) {
      assert Escalates(rows[i], rows[j]);
    }
  }

  lemma StepEscalates(sqrt: real -> real, s: State, e: Event, clock: int, evict: bool)
    requires IsSqrt(sqrt) && SoundBaselines(s.baselines) && clock <= Clock(clock, e)
    requires Chronological(s.rows, clock) && Escalating(s.rows)
    ensures Chronological(Step(sqrt, s, e, evict).rows, Clock(clock, e)) && Escalating(Step(sqrt, s, e, evict).rows)
  {
    match e
    case Observation(metric, value, detail, at) =>
      var s', row := ObservedCases(sqrt, s, metric, value, at, detail, evict);
      if row.Some? && !Suppressed(s'.rows, metric, row.value.severity, at) {
        RowAddedEscalates(s'.rows, row.value, at);
      }
    case Acked(id, user, now) => AckEscalates(s.rows, id, user, now, clock);
    case Pruned(days, now) => PruneEscalates(s.rows, now as real - days * DAY_MS, clock);
    case Wired =>
  }

  /** In every run with non-decreasing observation times, from any table that already escalates,
      open rows of one metric less than a cooldown apart rise strictly in severity. */
  lemma {:induction false} OpenRowsEscalate(sqrt: real -> real, s: State, run: seq<Event>, clock: int, evict: bool)
    requires IsSqrt(sqrt) && SoundBaselines(s.baselines) && InOrder(clock, run)
    requires Chronological(s.rows, clock) && Escalating(s.rows)
    ensures Escalating(After(sqrt, s, run, evict).rows)
    ensures AtMostTwo(After(sqrt, s, run, evict).rows)
    decreases |run|
  {
    if run == [] {
      Escalation(s.rows, clock);
    } else {
      StepEscalates(sqrt, s, run[0], clock, evict);
      OpenRowsEscalate(sqrt, Step(sqrt, s, run[0], evict), run[1..], Clock(clock, run[0]), evict);
    }
  }

  /** No three unacknowledged rows of one metric lie within one cooldown. */
  predicate AtMostTwo(rows: seq<Row>) {
    forall i, j, k :: 0 <= i < j < k < |rows| ==> !OpenTogether(rows[i], rows[j], rows[k])
  }

  predicate OpenTogether(a: Row, b: Row, c: Row) {
    && a.metric == b.metric == c.metric && a.ackedAt.None? && b.ackedAt.None? && c.ackedAt.None?
    && c.createdAt - a.createdAt < COOLDOWN
  }

  lemma Escalation(rows: seq<Row>, clock: int)
    requires Chronological(rows, clock) && Escalating(rows)
    ensures AtMostTwo(rows)
  {
    forall i, j, k | 0 <= i < j < k < |rows| ensures !OpenTogether(rows[i], rows[j], rows[k]) {
      assert Escalates(rows[i], rows[j]) && Escalates(rows[j], rows[k]);
      assert rows[i].severity != Info;
      assert rows[i].createdAt <= rows[j].createdAt <= rows[k].createdAt;
    }
  }

  // ----- without the order of times -----

  const NOTHING := State(map[], -1, [], 1, false, map[], [])

  predicate AllQuiet(run: seq<Event>, m: string) {
    forall i :: 0 <= i < |run| ==> run[i] == Observation(m, Some(0.0), None, 0)
  }

  function Quiet(m: string, n: nat): seq<Event> {
    if n == 0 then [] else [Observation(m, Some(0.0), None, 0)] + Quiet(m, n - 1)
  }

  lemma {:induction false} QuietIsQuiet(m: string, n: nat)
    ensures |Quiet(m, n)| == n && AllQuiet(Quiet(m, n), m)
  {
    if n > 0 {
      QuietIsQuiet(m, n - 1);
    }
  }

  lemma {:induction false} AfterConcat(sqrt: real -> real, s: State, a: seq<Event>, b: seq<Event>, evict: bool)
    requires IsSqrt(sqrt) && SoundBaselines(s.baselines)
    ensures After(sqrt, s, a + b, evict) == After(sqrt, After(sqrt, s, a, evict), b, evict)
    decreases |a|
  {
    if a == [] {
      assert a + b == b;
    } else {
      AfterConcat(sqrt, Step(sqrt, s, a[0], evict), a[1..], b, evict);
      assert (a + b)[1..] == a[1..] + b;
    }
  }

  /** One metric tracked with the given baseline, and the given rows. */
  predicate Tracking(s: State, m: string, mean: real, variance: real, n: nat, rows: seq<Row>) {
    && s.baselines.Keys == {m} && s.baselines[m].baseline == Baseline(mean, variance, n) && variance >= 0.0 && n > 0
    && s.rows == rows && !s.wired
  }

  lemma QuietStep(sqrt: real -> real, s: State, m: string, n: nat)
    requires IsSqrt(sqrt) && ValidMetric(m) && Tracking(s, m, 0.0, 0.0, n, [])
    ensures SoundBaselines(s.baselines)
    ensures Tracking(Step(sqrt, s, Observation(m, Some(0.0), None, 0), true), m, 0.0, 0.0, n + 1, [])
  {
    ClassifiedByDeviation(sqrt, 0.0, 0.0, 0.0, n, MetricDirection(m));
    assert !Deviates(0.0, 0.0, 0.0, WARN_Z);
    var s' := Folded(s, m, 0.0, 0);
    assert s'.baselines.Keys == {m};
  }

  lemma FirstQuiet(sqrt: real -> real, m: string)
    requires IsSqrt(sqrt) && ValidMetric(m)
    ensures Tracking(Step(sqrt, NOTHING, Observation(m, Some(0.0), None, 0), true), m, 0.0, 0.0, 1, [])
  {
    assert Folded(NOTHING, m, 0.0, 0).baselines.Keys == {m};
  }

  lemma AfterFirst(sqrt: real -> real, s: State, e: Event, rest: seq<Event>, next: State)
    requires IsSqrt(sqrt) && SoundBaselines(s.baselines) && next == Step(sqrt, s, e, true)
    ensures After(sqrt, s, [e] + rest, true) == After(sqrt, next, rest, true)
  {
    assert ([e] + rest)[1..] == rest;
  }

  /** One more quiet value. */
  lemma QuietOnce(sqrt: real -> real, s: State, m: string, n: nat, run: seq<Event>) returns (next: State)
    requires IsSqrt(sqrt) && ValidMetric(m) && Tracking(s, m, 0.0, 0.0, n, []) && run != [] && AllQuiet(run, m)
    ensures SoundBaselines(s.baselines) && SoundBaselines(next.baselines) && Tracking(next, m, 0.0, 0.0, n + 1, [])
    ensures After(sqrt, s, run, true) == After(sqrt, next, run[1..], true)
  {
    QuietStep(sqrt, s, m, n);
    next := Step(sqrt, s, run[0], true);
  }

  lemma {:induction false} QuietRun(sqrt: real -> real, s: State, m: string, n: nat, run: seq<Event>) returns (end: State)
    requires IsSqrt(sqrt) && ValidMetric(m) && Tracking(s, m, 0.0, 0.0, n, []) && AllQuiet(run, m)
    ensures SoundBaselines(s.baselines) && end == After(sqrt, s, run, true)
    ensures Tracking(end, m, 0.0, 0.0, n + |run|, [])
    decreases |run|
  {
    if run == [] {
      end := s;
    } else {
      var next := QuietOnce(sqrt, s, m, n, run);
      end := QuietRun(sqrt, next, m, n + 1, run[1..]);
    }
  }

  /** A value above the mean of an old enough baseline, not suppressed, is recorded. */
  lemma SpikeStep(sqrt: real -> real, s: State, m: string, mean: real, variance: real, n: nat, rows: seq<Row>,
                  value: real, at: int, severity: Severity) returns (row: Row)
    requires IsSqrt(sqrt) && ValidMetric(m) && Tracking(s, m, mean, variance, n, rows) && n >= MIN_SAMPLES && value >= mean
    requires Deviates(value, mean, variance, WARN_Z)
    requires severity == if Deviates(value, mean, variance, ALERT_Z) then Alert else Warn
    requires !Suppressed(rows, m, severity, at)
    ensures SoundBaselines(s.baselines)
    ensures row.metric == m && row.createdAt == at && row.ackedAt.None? && row.severity == severity
    ensures var next := EwmaUpdate(Some(Baseline(mean, variance, n)), value, ALPHA);
            next.variance >= 0.0
            && Tracking(Step(sqrt, s, Observation(m, Some(value), None, at), true), m, next.mean, next.variance, n + 1, rows + [row])
  {
    ClassifiedByDeviation(sqrt, value, mean, variance, n, MetricDirection(m));
    NextVariance(variance, value - mean);
    var prev := Previous(s, m);
    var z := ScoreOf(sqrt, prev, value);
    var f := Folded(s, m, value, at);
    assert f.baselines.Keys == {m};
    row := NewRow(f, m, value, mean, z, severity, None, at);
  }

  lemma NotOpenAlone(r: Row, m: string, now: int, severity: Severity)
    requires now - r.createdAt >= COOLDOWN
    ensures !Suppressed([r], m, severity, now)
  {
    var k := OpenRowIsNewest([r], m, now - COOLDOWN);
    assert !Open([r][0], m, now - COOLDOWN);
  }

  lemma NewestDecides(a: Row, b: Row, severity: Severity, now: int)
    requires Open(b, b.metric, now - COOLDOWN) && Rank(b.severity) < Rank(severity)
    ensures !Suppressed([a, b], b.metric, severity, now)
  {}

  /** The third spike, stamped just before the second. */
  lemma LastSpike(sqrt: real -> real, s: State, m: string, a: Row, b: Row) returns (run: seq<Event>)
    requires IsSqrt(sqrt) && ValidMetric(m) && Tracking(s, m, 0.11, 0.05265, 32, [a, b])
    requires Fresh(a, m, 0) && Fresh(b, m, COOLDOWN) && a.severity == Alert && b.severity == Warn
    ensures SoundBaselines(s.baselines) && !Escalating(After(sqrt, s, run, true).rows)
  {
    NewestDecides(a, b, Alert, COOLDOWN - 1);
    var c := SpikeStep(sqrt, s, m, 0.11, 0.05265, 32, [a, b], 1.21, COOLDOWN - 1, Alert);
    var e := Observation(m, Some(1.21), None, COOLDOWN - 1);
    AfterFirst(sqrt, s, e, [], Step(sqrt, s, e, true));
    run := [e] + [];
    assert [a, b] + [c] == [a, b, c];
    assert !Escalates([a, b, c][0], [a, b, c][2]);
  }

  lemma MiddleSpike(sqrt: real -> real, s: State, m: string, a: Row) returns (run: seq<Event>)
    requires IsSqrt(sqrt) && ValidMetric(m) && Tracking(s, m, 0.05, 0.0225, 31, [a])
    requires Fresh(a, m, 0) && a.severity == Alert
    ensures SoundBaselines(s.baselines) && !Escalating(After(sqrt, s, run, true).rows)
  {
    NotOpenAlone(a, m, COOLDOWN, Warn);
    var b := SpikeStep(sqrt, s, m, 0.05, 0.0225, 31, [a], 0.65, COOLDOWN, Warn);
    var e := Observation(m, Some(0.65), None, COOLDOWN);
    var next := Step(sqrt, s, e, true);
    assert [a] + [b] == [a, b];
    var rest := LastSpike(sqrt, next, m, a, b);
    AfterFirst(sqrt, s, e, rest, next);
    run := [e] + rest;
  }

  lemma SpikesRun(sqrt: real -> real, s: State, m: string) returns (run: seq<Event>)
    requires IsSqrt(sqrt) && ValidMetric(m) && Tracking(s, m, 0.0, 0.0, 30, [])
    ensures SoundBaselines(s.baselines) && !Escalating(After(sqrt, s, run, true).rows)
  {
    var a := SpikeStep(sqrt, s, m, 0.0, 0.0, 30, [], 0.5, 0, Alert);
    var e := Observation(m, Some(0.5), None, 0);
    var next := Step(sqrt, s, e, true);
    assert [] + [a] == [a];
    var rest := MiddleSpike(sqrt, next, m, a);
    AfterFirst(sqrt, s, e, rest, next);
    run := [e] + rest;
  }

  /** Without the order of times it fails: after thirty quiet values, an alert at 0, a warning at one
      cooldown and an alert stamped just before it leave two open alerts less than a cooldown
      apart. */
  lemma EarlierTimeBreaksEscalation(sqrt: real -> real, m: string) returns (run: seq<Event>)
    requires IsSqrt(sqrt) && ValidMetric(m)
    ensures !Escalating(After(sqrt, NOTHING, run, true).rows)
  {
    var first := Observation(m, Some(0.0), None, 0);
    var s := Step(sqrt, NOTHING, first, true);
    FirstQuiet(sqrt, m);
    var quiet := Quiet(m, 29);
    QuietIsQuiet(m, 29);
    var t := QuietRun(sqrt, s, m, 1, quiet);
    var spikes := SpikesRun(sqrt, t, m);
    AfterConcat(sqrt, s, quiet, spikes, true);
    AfterFirst(sqrt, NOTHING, first, quiet + spikes, s);
    run := [first] + (quiet + spikes);
  }

  // ----- alerts are a cooldown apart -----

  predicate Apart(a: Row, b: Row) {
    a.metric == b.metric ==> b.createdAt - a.createdAt >= COOLDOWN
  }

  predicate AlertsApart(sent: seq<Row>) {
    forall i, j :: 0 <= i < j < |sent| ==> Apart(sent[i], sent[j])
  }

  /** Every alert less than a cooldown old is still remembered. */
  predicate Remembered(s: State, clock: int) {
    forall i :: 0 <= i < |s.sent| ==> RememberedRow(s.lastAlert, s.sent[i], clock)
  }

  predicate RememberedRow(last: map<string, int>, row: Row, clock: int) {
    && row.createdAt <= clock
    && (clock - row.createdAt < COOLDOWN ==> row.metric in last && last[row.metric] >= row.createdAt)
  }

  lemma AlertedApart(s: State, row: Row, clock: int, now: int, evict: bool)
    requires clock <= now && row.createdAt == now
    requires AlertsApart(s.sent) && Remembered(s, clock)
    ensures var s' := Alerted(s, row, now, evict); AlertsApart(s'.sent) && Remembered(s', now)
  {
    var s' := Alerted(s, row, now, evict);
    forall i | 0 <= i < |s.sent| ensures RememberedRow(s'.lastAlert, s.sent[i], now) {
      assert RememberedRow(s.lastAlert, s.sent[i], clock);
    }
    if s'.sent != s.sent {
      forall i | 0 <= i < |s.sent| ensures Apart(s.sent[i], row) {
        assert RememberedRow(s.lastAlert, s.sent[i], clock);
      }
    }
  }

  lemma StepApart(sqrt: real -> real, s: State, e: Event, clock: int, evict: bool)
    requires IsSqrt(sqrt) && SoundBaselines(s.baselines) && clock <= Clock(clock, e)
    requires AlertsApart(s.sent) && Remembered(s, clock)
    ensures var s' := Step(sqrt, s, e, evict); AlertsApart(s'.sent) && Remembered(s', Clock(clock, e))
  {
    if e.Observation? {
      var s', row := ObservedCases(sqrt, s, e.metric, e.value, e.at, e.detail, evict);
      forall i | 0 <= i < |s.sent| ensures RememberedRow(s.lastAlert, s.sent[i], e.at) {
        assert RememberedRow(s.lastAlert, s.sent[i], clock);
      }
      if row.Some? {
        AlertedApart(s'.(rows := s'.rows + [row.value], nextId := s'.nextId + 1), row.value, clock, e.at, evict);
      }
    }
  }

  /** In every run with non-decreasing observation times, alerts of one metric are at least a
      cooldown apart, with or without eviction. */
  lemma {:induction false} AlertsCoolDown(sqrt: real -> real, s: State, run: seq<Event>, clock: int, evict: bool)
    requires IsSqrt(sqrt) && SoundBaselines(s.baselines) && InOrder(clock, run)
    requires AlertsApart(s.sent) && Remembered(s, clock)
    ensures AlertsApart(After(sqrt, s, run, evict).sent)
    decreases |run|
  {
    if run != [] {
      StepApart(sqrt, s, run[0], clock, evict);
      AlertsCoolDown(sqrt, Step(sqrt, s, run[0], evict), run[1..], Clock(clock, run[0]), evict);
    }
  }

  /** Every remembered time is that of an alert that was sent. */
  ghost predicate RememberedSent(s: State) {
    forall m :: m in s.lastAlert ==> SentAt(s.sent, m, s.lastAlert[m])
  }

  predicate SentAt(sent: seq<Row>, m: string, at: int) {
    exists i :: 0 <= i < |sent| && sent[i].metric == m && sent[i].createdAt == at
  }

  lemma SentStays(sent: seq<Row>, more: seq<Row>, m: string, at: int)
    requires SentAt(sent, m, at)
    ensures SentAt(sent + more, m, at)
  {
    var i :| 0 <= i < |sent| && sent[i].metric == m && sent[i].createdAt == at;
    assert (sent + more)[i] == sent[i];
  }

  lemma AlertedRemembersSent(s: State, row: Row, now: int, evict: bool)
    requires RememberedSent(s) && row.createdAt == now
    ensures RememberedSent(Alerted(s, row, now, evict))
  {
    var s' := Alerted(s, row, now, evict);
    forall m | m in s'.lastAlert ensures SentAt(s'.sent, m, s'.lastAlert[m]) {
      if s'.sent == s.sent {
        assert m in s.lastAlert && s'.lastAlert[m] == s.lastAlert[m];
      } else if m == row.metric {
        assert s'.sent[|s.sent|] == row;
      } else {
        SentStays(s.sent, [row], m, s.lastAlert[m]);
      }
    }
  }

  ghost predicate AlertState(s: State, clock: int) {
    AlertsApart(s.sent) && Remembered(s, clock) && RememberedSent(s)
  }

  lemma StepRemembersSent(sqrt: real -> real, s: State, e: Event, evict: bool)
    requires IsSqrt(sqrt) && SoundBaselines(s.baselines) && RememberedSent(s)
    ensures RememberedSent(Step(sqrt, s, e, evict))
  {
    if e.Observation? {
      var s', row := ObservedCases(sqrt, s, e.metric, e.value, e.at, e.detail, evict);
      if row.Some? {
        AlertedRemembersSent(s'.(rows := s'.rows + [row.value], nextId := s'.nextId + 1), row.value, e.at, evict);
      }
    }
  }

  function ClockAfter(clock: int, run: seq<Event>): int
    decreases |run|
  {
    if run == [] then clock else ClockAfter(Clock(clock, run[0]), run[1..])
  }

  lemma {:induction false} AlertStateKept(sqrt: real -> real, s: State, run: seq<Event>, clock: int, evict: bool)
    requires IsSqrt(sqrt) && SoundBaselines(s.baselines) && InOrder(clock, run) && AlertState(s, clock)
    ensures AlertState(After(sqrt, s, run, evict), ClockAfter(clock, run))
    decreases |run|
  {
    if run != [] {
      StepApart(sqrt, s, run[0], clock, evict);
      StepRemembersSent(sqrt, s, run[0], evict);
      AlertStateKept(sqrt, Step(sqrt, s, run[0], evict), run[1..], Clock(clock, run[0]), evict);
    }
  }

  /** No alert of the metric was sent within the last cooldown. */
  predicate CooledDown(sent: seq<Row>, m: string, now: int) {
    forall i :: 0 <= i < |sent| && sent[i].metric == m ==> now - sent[i].createdAt >= COOLDOWN
  }

  lemma AlertedIff(s: State, row: Row, clock: int, now: int, evict: bool)
    requires AlertState(s, clock) && clock <= now
    ensures Alerted(s, row, now, evict).sent
         == if row.severity == Alert && s.wired && CooledDown(s.sent, row.metric, now) then s.sent + [row] else s.sent
  {
    if row.severity == Alert && s.wired {
      var last := if evict && |s.lastAlert| > LAST_ALERT_MAX then Evicted(s.lastAlert, now) else s.lastAlert;
      if row.metric in last && now - last[row.metric] < COOLDOWN {
        assert SentAt(s.sent, row.metric, s.lastAlert[row.metric]);
      } else {
        forall i | 0 <= i < |s.sent| && s.sent[i].metric == row.metric ensures now - s.sent[i].createdAt >= COOLDOWN {
          assert RememberedRow(s.lastAlert, s.sent[i], clock);
        }
      }
    }
  }

  /** After any run with non-decreasing observation times: the next observation sends an alert
      exactly if it records an alert row, a hook is wired, and the metric's last alert is a cooldown
      ago. */
  lemma AlertSentIff(sqrt: real -> real, s: State, run: seq<Event>, clock: int, evict: bool,
                     metric: string, value: Option<real>, now: int, detail: Option<string>)
    requires IsSqrt(sqrt) && SoundBaselines(s.baselines) && AlertState(s, clock)
    requires InOrder(clock, run) && ClockAfter(clock, run) <= now
    ensures var t := After(sqrt, s, run, evict);
            var (t', row) := Observed(sqrt, t, metric, value, now, detail, evict);
            t'.sent == if row.Some? && row.value.severity == Alert && t.wired && CooledDown(t.sent, metric, now)
                       then t.sent + [row.value] else t.sent
  {
    AlertStateKept(sqrt, s, run, clock, evict);
    var t := After(sqrt, s, run, evict);
    var f, row := ObservedCases(sqrt, t, metric, value, now, detail, evict);
    if row.Some? && !Suppressed(f.rows, row.value.metric, row.value.severity, now) {
      AlertedIff(f.(rows := f.rows + [row.value], nextId := f.nextId + 1), row.value, ClockAfter(clock, run), now, evict);
    }
  }

  // ----- when a row is written -----

  predicate OutranksOpen(rows: seq<Row>, metric: string, severity: Severity, now: int) {
    forall i :: 0 <= i < |rows| && Open(rows[i], metric, now - COOLDOWN) ==> Rank(rows[i].severity) < Rank(severity)
  }

  lemma SuppressedIff(rows: seq<Row>, metric: string, severity: Severity, now: int)
    requires Chronological(rows, now) && Escalating(rows)
    ensures !Suppressed(rows, metric, severity, now) <==> OutranksOpen(rows, metric, severity, now)
  {
    OrderedNewestRanksHighest(rows, metric, now);
    var k := OpenRowIsNewest(rows, metric, now - COOLDOWN);
    if !Suppressed(rows, metric, severity, now) {
      forall i | 0 <= i < |rows| && Open(rows[i], metric, now - COOLDOWN) ensures Rank(rows[i].severity) < Rank(severity) {
        assert Suppressed(rows, metric, rows[i].severity, now);
      }
    }
  }

  /** An observation writes a row exactly if its metric is known with at least thirty values, the
      value deviates by three standard deviations (upwards for a spike-only metric), and it ranks
      above every open row of the metric; the row says what was seen. */
  lemma RowWrittenIff(sqrt: real -> real, s: State, metric: string, value: Option<real>, now: int, detail: Option<string>)
    requires IsSqrt(sqrt) && SoundBaselines(s.baselines) && Chronological(s.rows, now) && Escalating(s.rows)
    requires ValidMetric(metric) && value.Some? && metric in s.baselines
    ensures var b := s.baselines[metric].baseline;
            var severity := if Deviates(value.value, b.mean, b.variance, ALERT_Z) then Alert else Warn;
            var (s', row) := Observed(sqrt, s, metric, value, now, detail, true);
            && (row.Some? <==> && b.n >= MIN_SAMPLES && (MetricDirection(metric) == Up ==> value.value >= b.mean)
                               && Deviates(value.value, b.mean, b.variance, WARN_Z)
                               && OutranksOpen(s.rows, metric, severity, now))
            && (row.Some? ==> && row.value.severity == severity && row.value.metric == metric && row.value.value == value.value
                              && row.value.createdAt == now && row.value.ackedAt.None? && s'.rows == s.rows + [row.value])
            && (row.None? ==> s'.rows == s.rows)
  {
    var b := s.baselines[metric].baseline;
    ClassifiedByDeviation(sqrt, value.value, b.mean, b.variance, b.n, MetricDirection(metric));
    SuppressedIff(s.rows, metric, Alert, now);
    SuppressedIff(s.rows, metric, Warn, now);
    if Deviates(value.value, b.mean, b.variance, ALERT_Z) {
      AlertImpliesWarn(value.value, b.mean, b.variance);
    }
  }

  /** What else a written row says: a new id, the mean it was compared with, the deviation in units
      of the (floored) standard deviation, and the detail cut to 4096 characters. */
  lemma RowSaysWhatWasSeen(sqrt: real -> real, s: State, metric: string, value: Option<real>, now: int, detail: Option<string>)
    requires IsSqrt(sqrt) && SoundBaselines(s.baselines)
    ensures var row := Observed(sqrt, s, metric, value, now, detail, true).1;
            row.Some? ==>
              && value.Some? && metric in s.baselines
              && var b := s.baselines[metric].baseline;
              && row.value.id == s.nextId && row.value.expected == b.mean
              && row.value.z * sqrt(b.variance + EPSILON) == value.value - b.mean
              && (row.value.detail.Some? <==> detail.Some?)
              && (detail.Some? ==> && row.value.detail.value <= detail.value
                                   && |row.value.detail.value| == if |detail.value| < 4096 then |detail.value| else 4096)
  {
    if Taken(s, metric, value) && metric in s.baselines {
      var b := s.baselines[metric].baseline;
      QuotientBack(value.value - b.mean, sqrt(b.variance + EPSILON));
    }
  }

  lemma QuotientBack(d: real, root: real)
    requires root > 0.0
    ensures d / root * root == d
  {}

  lemma AlertImpliesWarn(value: real, mean: real, variance: real)
    requires variance >= 0.0 && Deviates(value, mean, variance, ALERT_Z)
    ensures Deviates(value, mean, variance, WARN_Z)
  {}

  // ----- acknowledging, and which metrics are one-sided -----

  /** Acknowledging touches only open rows with that id, and keeps all the others as they are. */
  lemma AckTouchesItsRow(rows: seq<Row>, id: int, user: string, now: int, i: nat)
    requires i < |rows|
    ensures |AckRows(rows, id, user, now)| == |rows|
    ensures var r := AckRows(rows, id, user, now)[i];
            && (rows[i].id != id || rows[i].ackedAt.Some? ==> r == rows[i])
            && (rows[i].id == id && rows[i].ackedAt.None? ==>
                  && r == rows[i].(ackedAt := r.ackedAt, ackedBy := r.ackedBy) && r.ackedAt == Some(now)
                  && r.ackedBy.Some? && r.ackedBy.value <= user
                  && |r.ackedBy.value| == if |user| < 100 then |user| else 100)
  {}

  lemma SpikeWord(m: string, k: nat, i: nat)
    requires k < |SPIKE_WORDS| && i <= |m| && OccursAt(SPIKE_WORDS[k], m, i)
    ensures MetricDirection(m) == Up
  {
    assert Occurs(SPIKE_WORDS[k], m);
  }

  lemma FailureRates()
    ensures MetricDirection("auth.failures_per_min") == Up && MetricDirection("service.flaps_per_hour") == Up
  {
    SpikeWord("auth.failures_per_min", 6, 5);
    SpikeWord("service.flaps_per_hour", 7, 8);
  }

  lemma ChangeRates()
    ensures MetricDirection("deploy.per_hour") == Up && MetricDirection("config.changes_per_hour") == Up
  {
    SpikeWord("deploy.per_hour", 1, 6);
    SpikeWord("config.changes_per_hour", 0, 14);
  }

  /** The metrics the engine feeds itself count only upwards. */
  lemma OwnRatesAreOneSided()
    ensures MetricDirection("auth.failures_per_min") == Up && MetricDirection("deploy.per_hour") == Up
    ensures MetricDirection("service.flaps_per_hour") == Up && MetricDirection("config.changes_per_hour") == Up
  {
    FailureRates();
    ChangeRates();
  }

  /** Without an r and an s no spike word fits, so the gauges agent.<id>.cpu and agent.<id>.load1 of
      such an agent count both ways. */
  lemma NoSpikeWord(m: string)
    requires forall i :: 0 <= i < |m| ==> Lower(m[i]) != 'r' && Lower(m[i]) != 's'
    ensures MetricDirection(m) == Both
  {
    forall k | 0 <= k < |SPIKE_WORDS| ensures !Occurs(SPIKE_WORDS[k], m) {
      SpikeLetter(k);
      forall i: nat | i <= |m| ensures !OccursAt(SPIKE_WORDS[k], m, i) {}
    }
  }

  lemma SpikeLetter(k: nat)
    requires k < |SPIKE_WORDS|
    ensures exists j :: 0 <= j < |SPIKE_WORDS[k]| && (SPIKE_WORDS[k][j] == 'r' || SPIKE_WORDS[k][j] == 's')
  {
    var w := SPIKE_WORDS[k];
    if k < 6 { assert w[3] == 'r'; } else if k == 6 { assert w[5] == 'r'; } else if k == 7 { assert w[4] == 's'; } else { assert w[1] == 'r'; }
  }

  // ----- eviction changes nothing -----

  /** Equal but for entries that `small` lacks and that have cooled down. */
  predicate Covers(small: map<string, int>, full: map<string, int>, clock: int) {
    && (forall m :: m in small ==> m in full && full[m] == small[m])
    && (forall m :: m in full && m !in small ==> clock - full[m] >= COOLDOWN)
  }

  predicate Agree(s: State, ideal: State, clock: int) {
    s == ideal.(lastAlert := s.lastAlert) && Covers(s.lastAlert, ideal.lastAlert, clock)
  }

  lemma AlertedAgree(s: State, ideal: State, row: Row, clock: int, now: int)
    requires clock <= now && Agree(s, ideal, clock)
    ensures Agree(Alerted(s, row, now, true), Alerted(ideal, row, now, false), now)
  {}

  lemma RecordedAgree(s: State, ideal: State, row: Row, now: int)
    requires Agree(s, ideal, now)
    ensures Agree(Recorded(s, row, now, true).0, Recorded(ideal, row, now, false).0, now)
  {
    AlertedAgree(s.(rows := s.rows + [row], nextId := s.nextId + 1),
                 ideal.(rows := ideal.rows + [row], nextId := ideal.nextId + 1), row, now, now);
  }

  lemma ObservedAgree(sqrt: real -> real, s: State, ideal: State, e: Event)
    requires IsSqrt(sqrt) && SoundBaselines(s.baselines) && SoundBaselines(ideal.baselines)
    requires e.Observation? && Agree(s, ideal, e.at) && Taken(s, e.metric, e.value)
    ensures Agree(Step(sqrt, s, e, true), Step(sqrt, ideal, e, false), e.at)
  {
    var prev := Previous(s, e.metric);
    var z := ScoreOf(sqrt, prev, e.value.value);
    var severity := Severe(z, prev, e.metric);
    var f, g := Folded(s, e.metric, e.value.value, e.at), Folded(ideal, e.metric, e.value.value, e.at);
    assert Agree(f, g, e.at);
    if severity.Some? {
      var row := NewRow(f, e.metric, e.value.value, Expected(prev, e.value.value), z, severity.value, e.detail, e.at);
      RecordedAgree(f, g, row, e.at);
    }
  }

  lemma StepAgrees(sqrt: real -> real, s: State, ideal: State, e: Event, clock: int)
    requires IsSqrt(sqrt) && SoundBaselines(s.baselines) && SoundBaselines(ideal.baselines)
    requires clock <= Clock(clock, e) && Agree(s, ideal, clock)
    ensures Agree(Step(sqrt, s, e, true), Step(sqrt, ideal, e, false), Clock(clock, e))
  {
    if e.Observation? {
      assert Agree(s, ideal, e.at);
      if Taken(s, e.metric, e.value) {
        ObservedAgree(sqrt, s, ideal, e);
      }
    }
  }

  /** In every run with non-decreasing observation times, dropping cooled-down entries changes
      neither a row nor an alert nor any baseline. */
  lemma {:induction false} EvictionChangesNothing(sqrt: real -> real, s: State, ideal: State, run: seq<Event>, clock: int)
    requires IsSqrt(sqrt) && SoundBaselines(s.baselines) && SoundBaselines(ideal.baselines)
    requires InOrder(clock, run) && Agree(s, ideal, clock)
    ensures var a, b := After(sqrt, s, run, true), After(sqrt, ideal, run, false);
            a == b.(lastAlert := a.lastAlert)
    decreases |run|
  {
    if run != [] {
      StepAgrees(sqrt, s, ideal, run[0], clock);
      EvictionChangesNothing(sqrt, Step(sqrt, s, run[0], true), Step(sqrt, ideal, run[0], false), run[1..], Clock(clock, run[0]));
    }
  }

  // ----- baselines follow the whole history -----

  /** The finite values observed for a metric, oldest first. */
  function ValuesOf(run: seq<Event>, m: string): seq<real> {
    if run == [] then []
    else
      var e := run[|run| - 1];
      ValuesOf(run[..|run| - 1], m) + (if e.Observation? && e.metric == m && e.value.Some? then [e.value.value] else [])
  }

  /** A tracked metric holds the baseline of its whole history; one with values but no baseline
      was turned away by a full table. */
  ghost predicate FollowsAt(baselines: map<string, BaselineRow>, m: string, xs: seq<real>) {
    if m in baselines then ValidMetric(m) && xs != [] && baselines[m].baseline == BaselineOf(ALPHA, xs)
    else ValidMetric(m) && xs != [] ==> |baselines| == BASELINE_MAX
  }

  /** Every metric follows its history, and the table never outgrows its cap. */
  ghost predicate Follows(s: State, past: seq<Event>) {
    && (s.baselineCount < 0 || s.baselineCount == |s.baselines|)
    && |s.baselines| <= BASELINE_MAX
    && forall m :: FollowsAt(s.baselines, m, ValuesOf(past, m))
  }

  lemma ValuesGrow(past: seq<Event>, e: Event, m: string)
    ensures ValuesOf(past + [e], m)
         == if e.Observation? && e.metric == m && e.value.Some? then ValuesOf(past, m) + [e.value.value] else ValuesOf(past, m)
  {
    assert (past + [e])[..|past|] == past;
  }

  lemma BaselineGrows(xs: seq<real>, x: real)
    ensures xs != [] ==> BaselineOf(ALPHA, xs + [x]) == EwmaUpdate(Some(BaselineOf(ALPHA, xs)), x, ALPHA)
    ensures xs == [] ==> BaselineOf(ALPHA, xs + [x]) == EwmaUpdate(None, x, ALPHA)
  {
    assert (xs + [x])[..|xs|] == xs;
  }

  lemma FoldedTable(s: State, metric: string, value: real, now: int)
    requires s.baselineCount < 0 || s.baselineCount == |s.baselines|
    ensures var s' := Folded(s, metric, value, now);
            && s'.baselines.Keys == s.baselines.Keys + {metric}
            && |s'.baselines| == |s.baselines| + (if metric in s.baselines then 0 else 1)
            && (s'.baselineCount < 0 || s'.baselineCount == |s'.baselines|)
  {
    var s' := Folded(s, metric, value, now);
    assert s'.baselines.Keys == s.baselines.Keys + {metric};
    assert |s'.baselines| == |s'.baselines.Keys| && |s.baselines| == |s.baselines.Keys|;
  }

  lemma FoldFollowsAt(s: State, s': State, metric: string, value: real, now: int, m: string, xs: seq<real>)
    requires Taken(s, metric, Some(value)) && s' == Folded(s, metric, value, now)
    requires s.baselineCount < 0 || s.baselineCount == |s.baselines|
    requires FollowsAt(s.baselines, m, xs) && |s'.baselines| <= BASELINE_MAX
    ensures FollowsAt(s'.baselines, m, if m == metric then xs + [value] else xs)
  {
    FoldedTable(s, metric, value, now);
    if m == metric {
      BaselineGrows(xs, value);
    }
  }

  lemma FoldFollows(s: State, past: seq<Event>, e: Event)
    requires e.Observation? && Taken(s, e.metric, e.value) && Follows(s, past)
    ensures Follows(Folded(s, e.metric, e.value.value, e.at), past + [e])
  {
    var s' := Folded(s, e.metric, e.value.value, e.at);
    FoldedTable(s, e.metric, e.value.value, e.at);
    forall m ensures FollowsAt(s'.baselines, m, ValuesOf(past + [e], m)) {
      ValuesGrow(past, e, m);
      FoldFollowsAt(s, s', e.metric, e.value.value, e.at, m, ValuesOf(past, m));
    }
  }

  lemma NotTakenFollows(s: State, past: seq<Event>, e: Event)
    requires Follows(s, past) && (e.Observation? ==> !Taken(s, e.metric, e.value))
    ensures Follows(if e.Observation? then NotTaken(s, e.metric, e.value) else s, past + [e])
  {
    forall m ensures FollowsAt(s.baselines, m, ValuesOf(past + [e], m)) {
      ValuesGrow(past, e, m);
      assert FollowsAt(s.baselines, m, ValuesOf(past, m));
    }
  }

  lemma OnlyBaselinesMatter(s: State, s': State, past: seq<Event>)
    requires Follows(s, past) && s'.baselines == s.baselines && s'.baselineCount == s.baselineCount
    ensures Follows(s', past)
  {}

  lemma ObservedTables(sqrt: real -> real, s: State, e: Event, evict: bool)
    requires IsSqrt(sqrt) && SoundBaselines(s.baselines) && e.Observation?
    ensures var s' := Step(sqrt, s, e, evict);
            var t := if Taken(s, e.metric, e.value) then Folded(s, e.metric, e.value.value, e.at)
                     else NotTaken(s, e.metric, e.value);
            s'.baselines == t.baselines && s'.baselineCount == t.baselineCount
  {}

  lemma StepFollows(sqrt: real -> real, s: State, past: seq<Event>, e: Event, evict: bool)
    requires IsSqrt(sqrt) && SoundBaselines(s.baselines) && Follows(s, past)
    ensures Follows(Step(sqrt, s, e, evict), past + [e])
  {
    var s' := Step(sqrt, s, e, evict);
    if e.Observation? {
      ObservedTables(sqrt, s, e, evict);
      if Taken(s, e.metric, e.value) {
        FoldFollows(s, past, e);
        OnlyBaselinesMatter(Folded(s, e.metric, e.value.value, e.at), s', past + [e]);
      } else {
        NotTakenFollows(s, past, e);
        OnlyBaselinesMatter(NotTaken(s, e.metric, e.value), s', past + [e]);
      }
    } else {
      NotTakenFollows(s, past, e);
      OnlyBaselinesMatter(s, s', past + [e]);
    }
  }

  /** In every run, in any order of times, a tracked metric's baseline is that of its whole history. */
  lemma {:induction false} BaselinesFollowHistory(sqrt: real -> real, s: State, past: seq<Event>, run: seq<Event>, evict: bool)
    requires IsSqrt(sqrt) && SoundBaselines(s.baselines) && Follows(s, past)
    ensures Follows(After(sqrt, s, run, evict), past + run)
    decreases |run|
  {
    if run == [] {
      assert past + run == past;
    } else {
      StepFollows(sqrt, s, past, run[0], evict);
      BaselinesFollowHistory(sqrt, Step(sqrt, s, run[0], evict), past + [run[0]], run[1..], evict);
      assert past + [run[0]] + run[1..] == past + run;
    }
  }

  lemma RowNeedsSamples(sqrt: real -> real, s: State, metric: string, value: Option<real>, now: int, detail: Option<string>)
    requires IsSqrt(sqrt) && SoundBaselines(s.baselines)
    ensures var row := Observed(sqrt, s, metric, value, now, detail, true).1;
            row.Some? ==> && metric in s.baselines && s.baselines[metric].baseline.n >= MIN_SAMPLES
                          && row.value.expected == s.baselines[metric].baseline.mean
  {}

  /** A recorded row was scored against the weighted mean of all earlier values, at least thirty. */
  lemma RowsScoredAgainstHistory(sqrt: real -> real, s: State, past: seq<Event>, metric: string, value: Option<real>,
                                 now: int, detail: Option<string>)
    requires IsSqrt(sqrt) && SoundBaselines(s.baselines) && Follows(s, past)
    ensures var row := Observed(sqrt, s, metric, value, now, detail, true).1;
            row.Some? ==> && |ValuesOf(past, metric)| >= MIN_SAMPLES
                          && row.value.expected == Mean(AverageOver(ALPHA, ValuesOf(past, metric)))
  {
    RowNeedsSamples(sqrt, s, metric, value, now, detail);
    assert FollowsAt(s.baselines, metric, ValuesOf(past, metric));
    if metric in s.baselines {
      BaselineIsWeighted(ALPHA, ValuesOf(past, metric));
    }
  }
}
