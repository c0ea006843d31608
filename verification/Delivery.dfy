/** Store-and-forward delivery of samples: the bounded queue (agent/internal/send/buffer.go), the
    one-in-flight gate (agent/internal/send/coalesce.go) and the collection loop around them
    (agent/cmd/wharfinger-agent/main.go). */
module Delivery {
  import opened Options
  import opened Strings

  type Sample = nat

  const BUFFER_CAP := 256
  const BACKFILL_MAX_PER_TICK := 50

  // ----- the queue -----

  /** The queue after one push, and what fell out of it. */
  function Queued(q: seq<Sample>, p: Sample): (r: seq<Sample>)
    ensures Dropped(q, p) + r == q + [p]
  {
    if |q| >= BUFFER_CAP then q[1..] + [p] else q + [p]
  }

  function Dropped(q: seq<Sample>, p: Sample): seq<Sample> {
    if |q| >= BUFFER_CAP then q[..1] else []
  }

  function QueuedAll(q: seq<Sample>, ps: seq<Sample>): seq<Sample>
    decreases |ps|
  {
    if ps == [] then q else QueuedAll(Queued(q, ps[0]), ps[1..])
  }

  function DroppedAll(q: seq<Sample>, ps: seq<Sample>): seq<Sample>
    decreases |ps|
  {
    if ps == [] then [] else Dropped(q, ps[0]) + DroppedAll(Queued(q, ps[0]), ps[1..])
  }

  /** Pushing loses nothing and keeps order: what fell out, then the queue. The queue keeps its
      newest BUFFER_CAP samples, and nothing falls out while there is room. */
  lemma {:induction false} PushedAllSplits(q: seq<Sample>, ps: seq<Sample>)
    requires |q| <= BUFFER_CAP
    ensures DroppedAll(q, ps) + QueuedAll(q, ps) == q + ps
    ensures |QueuedAll(q, ps)| == if |q| + |ps| <= BUFFER_CAP then |q| + |ps| else BUFFER_CAP
    decreases |ps|
  {
    if ps == [] {
      assert DroppedAll(q, ps) + q == q && q + ps == q;
    } else {
      var q1, rest := Queued(q, ps[0]), ps[1..];
      PushedAllSplits(q1, rest);
      Assoc(Dropped(q, ps[0]), DroppedAll(q1, rest), QueuedAll(q1, rest));
      Assoc(Dropped(q, ps[0]), q1, rest);
      Assoc(q, [ps[0]], rest);
      assert [ps[0]] + rest == ps;
    }
  }

  class Buffer {
    var q: seq<Sample>
    /** Everything dropped so far, oldest first. */
    var dropped: seq<Sample>

    constructor ()
      ensures q == [] && dropped == []
    {
      q, dropped := [], [];
    }

    method Push(p: Sample)
      modifies this
      ensures q == Queued(old(q), p) && dropped == old(dropped) + Dropped(old(q), p)
    {
      if |q| >= BUFFER_CAP {
        dropped := dropped + q[..1];
        q := q[1..];
      } else {
        assert dropped + [] == dropped;
      }
      q := q + [p];
    }

    method PushAll(ps: seq<Sample>)
      modifies this
      ensures q == QueuedAll(old(q), ps) && dropped == old(dropped) + DroppedAll(old(q), ps)
    {
      var i := 0;
      while i < |ps|
        invariant 0 <= i <= |ps|
        invariant QueuedAll(old(q), ps) == QueuedAll(q, ps[i..])
        invariant old(dropped) + DroppedAll(old(q), ps) == dropped + DroppedAll(q, ps[i..])
      {
        Assoc(dropped, Dropped(q, ps[i]), DroppedAll(Queued(q, ps[i]), ps[i + 1..]));
        assert ps[i..][1..] == ps[i + 1..];
        Push(ps[i]);
        i := i + 1;
      }
      assert dropped + [] == dropped;
    }

    method Drain() returns (out: seq<Sample>)
      modifies this`q
      ensures out == old(q) && q == []
    {
      out := q;
      q := [];
    }

    method DrainMax(n: nat) returns (out: seq<Sample>)
      modifies this`q
      ensures out + q == old(q) && |out| == if |old(q)| <= n then |old(q)| else n
    {
      if |q| <= n {
        out, q := q, [];
      } else {
        out, q := q[..n], q[n..];
      }
    }

    method Len() returns (n: nat)
      ensures n == |q|
    {
      n := |q|;
    }
  }

  /** The first n queued samples, or all of them. */
  function Chunk(q: seq<Sample>, n: nat): nat {
    if |q| <= n then |q| else n
  }

  predicate Distinct(q: seq<Sample>) {
    forall i, j :: 0 <= i < j < |q| ==> q[i] != q[j]
  }

  /** Requeueing what is left of a drained backlog, from its i-th sample on, never drops anything;
      it restores the order exactly when the backlog was the whole queue, and otherwise lands
      behind what was left there. */
  lemma RequeueOrder(q: seq<Sample>, n: nat, i: nat)
    requires |q| <= BUFFER_CAP && Distinct(q) && i < Chunk(q, n)
    ensures var k := Chunk(q, n);
            && QueuedAll(q[k..], q[i..k]) == q[k..] + q[i..k] && DroppedAll(q[k..], q[i..k]) == []
            && (QueuedAll(q[k..], q[i..k]) == q[i..] <==> |q| <= n)
  {
    var k := Chunk(q, n);
    PushedAllSplits(q[k..], q[i..k]);
    NothingBefore(DroppedAll(q[k..], q[i..k]), QueuedAll(q[k..], q[i..k]), q[k..] + q[i..k]);
    if |q| > n {
      assert (q[k..] + q[i..k])[0] == q[k] && q[i..][0] == q[i];
    } else {
      assert q[k..] == [] && q[i..k] == q[i..];
    }
  }

  lemma NothingBefore(a: seq<Sample>, b: seq<Sample>, c: seq<Sample>)
    requires a + b == c && |b| == |c|
    ensures a == [] && b == c
  {
    assert [] + b == b;
  }

  class DropOnBusy {
    var busy: bool

    constructor ()
      ensures !busy
    {
      busy := false;
    }

    method Acquire() returns (ok: bool)
      modifies this
      ensures ok == !old(busy) && busy
    {
      ok := !busy;
      busy := true;
    }

    method Release()
      modifies this
      ensures !busy
    {
      busy := false;
    }
  }

  // ----- the loop and its posts as a protocol -----

  /** A post goroutine: the request runs, its result waits for the channel, the gate is still held. */
  datatype Stage = Running | Finished(ok: bool) | Reported

  datatype Post = Post(sample: Sample, stage: Stage)

  datatype Outcome = Outcome(sample: Sample, ok: bool)

  /** Where the loop is: at the select, or in a tick with a backlog still to flush and the live
      sample after it. */
  datatype Loop = Selecting | Flushing(backlog: seq<Sample>, live: Sample)

  datatype State = State(
    queue: seq<Sample>, evicted: seq<Sample>,
    loop: Loop,
    connected: bool, gate: bool,
    posts: seq<Post>, channel: Option<Outcome>,
    delivered: seq<Sample>, collected: seq<Sample>,
    hub: seq<Sample>)                         // history: what the hub has taken

  datatype Step =
    | Socket(up: bool)                        // the socket comes up or goes down, at any time
    | Tick(sample: Sample)
    | FlushOne(sendOk: bool)
    | SendLive(sendOk: bool)
    | PostEnds(k: nat, ok: bool)
    | PostReports(k: nat)
    | PostReleases(k: nat)
    | ReadResult

  predicate Enabled(s: State, e: Step) {
    match e
    case Socket(_) => true
    case Tick(sample) => s.loop.Selecting? && sample !in s.collected
    case FlushOne(_) => s.loop.Flushing? && s.loop.backlog != []
    case SendLive(_) => s.loop.Flushing? && s.loop.backlog == []
    case PostEnds(k, _) => k < |s.posts| && s.posts[k].stage.Running?
    case PostReports(k) => k < |s.posts| && s.posts[k].stage.Finished? && s.channel.None?
    case PostReleases(k) => k < |s.posts| && s.posts[k].stage.Reported?
    case ReadResult => s.loop.Selecting? && s.channel.Some?
  }

  function Requeue(s: State, ps: seq<Sample>): State {
    s.(queue := QueuedAll(s.queue, ps), evicted := s.evicted + DroppedAll(s.queue, ps))
  }

  /** `deliver`: over the socket, or by a post if the gate is free. The flag is whether it took
      the sample. */
  function Deliver(s: State, p: Sample, sendOk: bool): (State, bool) {
    if s.connected then
      if sendOk then (s.(delivered := s.delivered + [p], hub := s.hub + [p]), true) else (s, false)
    else if s.gate then (s, false)
    else (s.(gate := true, posts := s.posts + [Post(p, Running)]), true)
  }

  function Do(s: State, e: Step): State
    requires Enabled(s, e)
  {
    match e
    case Socket(up) => s.(connected := up)
    case Tick(sample) =>
      var k := Chunk(s.queue, BACKFILL_MAX_PER_TICK);
      s.(collected := s.collected + [sample], queue := s.queue[k..], loop := Flushing(s.queue[..k], sample))
    case FlushOne(sendOk) =>
      var b := s.loop.backlog;
      var (s', taken) := Deliver(s, b[0], sendOk);
      if taken then s'.(loop := Flushing(b[1..], s.loop.live))
      else Requeue(s', b).(loop := Flushing([], s.loop.live))
    case SendLive(sendOk) =>
      var (s', taken) := Deliver(s, s.loop.live, sendOk);
      if taken then s'.(loop := Selecting)
      else Requeue(s', [s.loop.live]).(loop := Selecting)
    case PostEnds(k, ok) =>
      s.(posts := s.posts[k := s.posts[k].(stage := Finished(ok))],
         hub := if ok then s.hub + [s.posts[k].sample] else s.hub)
    case PostReports(k) =>
      s.(posts := s.posts[k := s.posts[k].(stage := Reported)],
         channel := Some(Outcome(s.posts[k].sample, s.posts[k].stage.ok)))
    case PostReleases(k) => s.(posts := s.posts[..k] + s.posts[k + 1..], gate := false)
    case ReadResult =>
      var r := s.channel.value;
      if r.ok then s.(channel := None, delivered := s.delivered + [r.sample])
      else Requeue(s.(channel := None), [r.sample])
  }

  ghost predicate ValidRun(s: State, run: seq<Step>)
    decreases |run|
  {
    run == [] || (Enabled(s, run[0]) && ValidRun(Do(s, run[0]), run[1..]))
  }

  ghost function After(s: State, run: seq<Step>): State
    requires ValidRun(s, run)
    decreases |run|
  {
    if run == [] then s else After(Do(s, run[0]), run[1..])
  }

  function Start(connected: bool): State {
    State([], [], Selecting, connected, false, [], None, [], [], [])
  }

  // ----- conservation -----

  function Count(q: seq<Sample>, x: Sample): nat {
    if q == [] then 0 else (if q[0] == x then 1 else 0) + Count(q[1..], x)
  }

  lemma {:induction false} CountConcat(a: seq<Sample>, b: seq<Sample>, x: Sample)
    ensures Count(a + b, x) == Count(a, x) + Count(b, x)
  {
    if a == [] {
      assert a + b == b;
    } else {
      CountConcat(a[1..], b, x);
      assert (a + b)[1..] == a[1..] + b;
    }
  }

  lemma {:induction false} CountAbsent(q: seq<Sample>, x: Sample)
    ensures Count(q, x) == 0 <==> x !in q
  {
    if q != [] {
      CountAbsent(q[1..], x);
      assert q == [q[0]] + q[1..];
    }
  }

  lemma {:induction false} CountDistinct(q: seq<Sample>, x: Sample)
    requires Distinct(q)
    ensures Count(q, x) == if x in q then 1 else 0
  {
    if q != [] {
      CountDistinct(q[1..], x);
      assert q == [q[0]] + q[1..];
      assert q[0] !in q[1..];
    }
  }

  /** What the loop holds between the drain and the end of the tick. */
  function InHand(l: Loop): seq<Sample> {
    if l.Selecting? then [] else l.backlog + [l.live]
  }

  /** The sample of a post whose result is not in the channel yet. */
  function Carried(posts: seq<Post>): seq<Sample> {
    if |posts| == 1 && !posts[0].stage.Reported? then [posts[0].sample] else []
  }

  function Unread(channel: Option<Outcome>): seq<Sample> {
    if channel.Some? then [channel.value.sample] else []
  }

  /** How often x occurs in the queue, with the loop, in a post, as an unread result, among the
      delivered, and among the evicted. */
  function Total(s: State, x: Sample): nat {
    Count(s.queue, x) + Count(InHand(s.loop), x) + Count(Carried(s.posts), x) + Count(Unread(s.channel), x)
    + Count(s.delivered, x) + Count(s.evicted, x)
  }

  /** At most one post, and the gate is held exactly while there is one; the queue and a backlog
      drained from it fit the cap; nothing collected twice. */
  predicate Bounded(s: State) {
    && |s.posts| <= 1 && (s.gate <==> |s.posts| == 1)
    && |s.queue| + (if s.loop.Flushing? then |s.loop.backlog| else 0) <= BUFFER_CAP
    && (s.loop.Flushing? ==> |s.loop.backlog| <= BACKFILL_MAX_PER_TICK)
    && Distinct(s.collected)
  }

  predicate Conserved(s: State, x: Sample) {
    Total(s, x) == Count(s.collected, x)
  }

  lemma RequeueBounded(s: State, ps: seq<Sample>)
    requires |s.queue| <= BUFFER_CAP
    ensures |Requeue(s, ps).queue| <= BUFFER_CAP
    ensures |s.queue| + |ps| <= BUFFER_CAP ==> Requeue(s, ps).evicted == s.evicted
  {
    PushedAllSplits(s.queue, ps);
    if |s.queue| + |ps| <= BUFFER_CAP {
      NothingBefore(DroppedAll(s.queue, ps), QueuedAll(s.queue, ps), s.queue + ps);
      assert s.evicted + [] == s.evicted;
    }
  }

  lemma RequeueCounts(s: State, ps: seq<Sample>, x: Sample)
    requires |s.queue| <= BUFFER_CAP
    ensures var s' := Requeue(s, ps);
            Count(s'.queue, x) + Count(s'.evicted, x) == Count(s.queue, x) + Count(s.evicted, x) + Count(ps, x)
  {
    var q, out := QueuedAll(s.queue, ps), DroppedAll(s.queue, ps);
    PushedAllSplits(s.queue, ps);
    CountConcat(out, q, x);
    CountConcat(s.queue, ps, x);
    CountConcat(s.evicted, out, x);
  }

  lemma DeliverCounts(s: State, p: Sample, sendOk: bool, x: Sample)
    requires Bounded(s)
    ensures var (s', taken) := Deliver(s, p, sendOk);
            if taken then
              && s' == s.(gate := s'.gate, posts := s'.posts, delivered := s'.delivered, hub := s'.hub)
              && |s'.posts| <= 1 && (s'.gate <==> |s'.posts| == 1)
              && Count(Carried(s'.posts), x) + Count(s'.delivered, x)
                 == Count(Carried(s.posts), x) + Count(s.delivered, x) + Count([p], x)
            else s' == s
  {
    CountConcat(s.delivered, [p], x);
  }

  // ----- every step keeps it -----

  lemma TickKeeps(s: State, sample: Sample, x: Sample)
    requires Bounded(s) && Conserved(s, x) && Enabled(s, Tick(sample))
    ensures Bounded(Do(s, Tick(sample))) && Conserved(Do(s, Tick(sample)), x)
  {
    var k := Chunk(s.queue, BACKFILL_MAX_PER_TICK);
    assert s.queue == s.queue[..k] + s.queue[k..];
    CountConcat(s.queue[..k], s.queue[k..], x);
    CountConcat(s.queue[..k], [sample], x);
    CountConcat(s.collected, [sample], x);
  }

  lemma FlushTakenKeeps(s: State, sendOk: bool, x: Sample)
    requires Bounded(s) && Conserved(s, x) && Enabled(s, FlushOne(sendOk))
    requires Deliver(s, s.loop.backlog[0], sendOk).1
    ensures Bounded(Do(s, FlushOne(sendOk))) && Conserved(Do(s, FlushOne(sendOk)), x)
  {
    var b, live := s.loop.backlog, s.loop.live;
    DeliverCounts(s, b[0], sendOk, x);
    assert b + [live] == [b[0]] + (b[1..] + [live]);
    CountConcat([b[0]], b[1..] + [live], x);
  }

  lemma FlushRefusedKeeps(s: State, sendOk: bool, x: Sample)
    requires Bounded(s) && Conserved(s, x) && Enabled(s, FlushOne(sendOk))
    requires !Deliver(s, s.loop.backlog[0], sendOk).1
    ensures Bounded(Do(s, FlushOne(sendOk))) && Conserved(Do(s, FlushOne(sendOk)), x)
    ensures Do(s, FlushOne(sendOk)).evicted == s.evicted
  {
    var b, live := s.loop.backlog, s.loop.live;
    CountConcat(b, [live], x);
    assert [] + [live] == [live];
    RequeueBounded(s, b);
    RequeueCounts(s, b, x);
    PushedAllSplits(s.queue, b);
  }

  lemma FlushOneKeeps(s: State, sendOk: bool, x: Sample)
    requires Bounded(s) && Conserved(s, x) && Enabled(s, FlushOne(sendOk))
    ensures Bounded(Do(s, FlushOne(sendOk))) && Conserved(Do(s, FlushOne(sendOk)), x)
    ensures Do(s, FlushOne(sendOk)).evicted == s.evicted
  {
    if Deliver(s, s.loop.backlog[0], sendOk).1 { FlushTakenKeeps(s, sendOk, x); } else { FlushRefusedKeeps(s, sendOk, x); }
  }

  lemma SendLiveKeeps(s: State, sendOk: bool, x: Sample)
    requires Bounded(s) && Conserved(s, x) && Enabled(s, SendLive(sendOk))
    ensures Bounded(Do(s, SendLive(sendOk))) && Conserved(Do(s, SendLive(sendOk)), x)
  {
    var live := s.loop.live;
    DeliverCounts(s, live, sendOk, x);
    assert [] + [live] == [live];
    RequeueBounded(s, [live]);
    RequeueCounts(s, [live], x);
  }

  lemma PostKeeps(s: State, e: Step, x: Sample)
    requires Bounded(s) && Conserved(s, x) && Enabled(s, e) && (e.PostEnds? || e.PostReports? || e.PostReleases?)
    ensures Bounded(Do(s, e)) && Conserved(Do(s, e), x)
  {
    assert e.k == 0;
  }

  lemma ReadSuccessKeeps(s: State, x: Sample)
    requires Bounded(s) && Conserved(s, x) && Enabled(s, ReadResult) && s.channel.value.ok
    ensures Bounded(Do(s, ReadResult)) && Conserved(Do(s, ReadResult), x)
  {
    CountConcat(s.delivered, [s.channel.value.sample], x);
  }

  lemma ReadFailureKeeps(s: State, x: Sample)
    requires Bounded(s) && Conserved(s, x) && Enabled(s, ReadResult) && !s.channel.value.ok
    ensures Bounded(Do(s, ReadResult)) && Conserved(Do(s, ReadResult), x)
  {
    var t, p := s.(channel := None), s.channel.value.sample;
    RequeueBounded(t, [p]);
    RequeueCounts(t, [p], x);
  }

  lemma StepKeeps(s: State, e: Step, x: Sample)
    requires Bounded(s) && Conserved(s, x) && Enabled(s, e)
    ensures Bounded(Do(s, e)) && Conserved(Do(s, e), x)
  {
    match e
    case Socket(up) =>
    case Tick(sample) => TickKeeps(s, sample, x);
    case FlushOne(sendOk) => FlushOneKeeps(s, sendOk, x);
    case SendLive(sendOk) => SendLiveKeeps(s, sendOk, x);
    case PostEnds(k, ok) => PostKeeps(s, e, x);
    case PostReports(k) => PostKeeps(s, e, x);
    case PostReleases(k) => PostKeeps(s, e, x);
    case ReadResult => if s.channel.value.ok { ReadSuccessKeeps(s, x); } else { ReadFailureKeeps(s, x); }
  }

  lemma {:induction false} RunKeeps(s: State, run: seq<Step>, x: Sample)
    requires Bounded(s) && Conserved(s, x) && ValidRun(s, run)
    ensures Bounded(After(s, run)) && Conserved(After(s, run), x)
    decreases |run|
  {
    if run != [] {
      StepKeeps(s, run[0], x);
      RunKeeps(Do(s, run[0]), run[1..], x);
    }
  }

  /** Over every interleaving of ticks, socket changes and posts: a collected sample is in exactly
      one place, once, and no other sample is anywhere. Between ticks the loop holds none. */
  lemma EachSampleInOnePlace(connected: bool, run: seq<Step>, x: Sample)
    requires ValidRun(Start(connected), run)
    ensures var s := After(Start(connected), run);
            && Total(s, x) == (if x in s.collected then 1 else 0)
            && (s.loop.Selecting? ==> Count(InHand(s.loop), x) == 0)
  {
    RunKeeps(Start(connected), run, x);
    CountDistinct(After(Start(connected), run).collected, x);
  }

  /** In every reachable state at most one post exists, the gate is held exactly meanwhile, the
      queue is within its cap, and requeueing a backlog would evict nothing. */
  lemma OnePostBoundedQueue(connected: bool, run: seq<Step>)
    requires ValidRun(Start(connected), run)
    ensures var s := After(Start(connected), run);
            && |s.posts| <= 1 && (s.gate <==> |s.posts| == 1)
            && |s.queue| <= BUFFER_CAP
            && forall sendOk :: Enabled(s, FlushOne(sendOk)) ==> Do(s, FlushOne(sendOk)).evicted == s.evicted
  {
    RunKeeps(Start(connected), run, 0);
    var s := After(Start(connected), run);
    forall sendOk | Enabled(s, FlushOne(sendOk)) ensures Do(s, FlushOne(sendOk)).evicted == s.evicted {
      FlushOneKeeps(s, sendOk, 0);
    }
  }

  // ----- what the hub has -----

  /** The sample of a post that succeeded and whose result is not in the channel yet. */
  function Succeeded(posts: seq<Post>): seq<Sample> {
    if |posts| == 1 && posts[0].stage == Finished(true) then [posts[0].sample] else []
  }

  function UnreadSuccess(channel: Option<Outcome>): seq<Sample> {
    if channel.Some? && channel.value.ok then [channel.value.sample] else []
  }

  /** What the hub has taken is what counts as delivered, up to one result still on its way. */
  predicate Acknowledged(s: State, x: Sample) {
    Count(s.hub, x) == Count(s.delivered, x) + Count(Succeeded(s.posts), x) + Count(UnreadSuccess(s.channel), x)
  }

  lemma DeliverAcknowledges(s: State, p: Sample, sendOk: bool, x: Sample)
    requires Bounded(s) && Acknowledged(s, x)
    ensures Acknowledged(Deliver(s, p, sendOk).0, x)
  {
    CountConcat(s.delivered, [p], x);
    CountConcat(s.hub, [p], x);
  }

  lemma StepAcknowledges(s: State, e: Step, x: Sample)
    requires Bounded(s) && Acknowledged(s, x) && Enabled(s, e)
    ensures Acknowledged(Do(s, e), x)
  {
    match e
    case FlushOne(sendOk) => DeliverAcknowledges(s, s.loop.backlog[0], sendOk, x);
    case SendLive(sendOk) => DeliverAcknowledges(s, s.loop.live, sendOk, x);
    case PostEnds(k, ok) => CountConcat(s.hub, [s.posts[k].sample], x);
    case ReadResult => CountConcat(s.delivered, [s.channel.value.sample], x);
    case _ =>
  }

  lemma {:induction false} RunAcknowledges(s: State, run: seq<Step>, x: Sample)
    requires Bounded(s) && Conserved(s, x) && Acknowledged(s, x) && ValidRun(s, run)
    ensures Acknowledged(After(s, run), x)
    decreases |run|
  {
    if run != [] {
      StepKeeps(s, run[0], x);
      StepAcknowledges(s, run[0], x);
      RunAcknowledges(Do(s, run[0]), run[1..], x);
    }
  }

  /** In every interleaving what counts as delivered is what the hub took, up to the result of the
      one post that may still be unread. */
  lemma DeliveredIsWhatHubTook(connected: bool, run: seq<Step>, x: Sample)
    requires ValidRun(Start(connected), run)
    ensures Acknowledged(After(Start(connected), run), x)
  {
    RunAcknowledges(Start(connected), run, x);
  }

  /** In every reachable state, whatever happens next: nothing is lost unless the queue is full, and
      then only its oldest sample; and a tick takes at most fifty samples from the queue. */
  lemma OnlyOldestOfFullQueueLost(connected: bool, run: seq<Step>, e: Step)
    requires ValidRun(Start(connected), run) && Enabled(After(Start(connected), run), e)
    ensures var s := After(Start(connected), run);
            var s' := Do(s, e);
            && (s'.evicted == s.evicted || (|s.queue| == BUFFER_CAP && s'.evicted == s.evicted + s.queue[..1]))
            && |InHand(s'.loop)| <= BACKFILL_MAX_PER_TICK + 1
  {
    RunKeeps(Start(connected), run, 0);
    var s := After(Start(connected), run);
    StepKeeps(s, e, 0);
    match e
    case FlushOne(sendOk) => FlushOneKeeps(s, sendOk, 0);
    case SendLive(sendOk) => OneRequeued(s, s.loop.live);
    case ReadResult => OneRequeued(s.(channel := None), s.channel.value.sample);
    case _ =>
  }

  lemma OneRequeued(s: State, p: Sample)
    requires |s.queue| <= BUFFER_CAP
    ensures Requeue(s, [p]).evicted == s.evicted
            || (|s.queue| == BUFFER_CAP && Requeue(s, [p]).evicted == s.evicted + s.queue[..1])
  {
    assert [p][1..] == [];
    assert DroppedAll(s.queue, [p]) == Dropped(s.queue, p) + [];
    assert s.evicted + [] == s.evicted;
  }

  // ----- what a tick gets done -----

  lemma RunOne(s: State, e: Step, rest: seq<Step>)
    requires Enabled(s, e) && ValidRun(Do(s, e), rest)
    ensures ValidRun(s, [e] + rest) && After(s, [e] + rest) == After(Do(s, e), rest)
  {
    assert ([e] + rest)[1..] == rest;
  }

  /** The sends of a tick with b samples to flush, the live one last. */
  function Sends(b: nat): seq<Step> {
    if b == 0 then [SendLive(true)] else [FlushOne(true)] + Sends(b - 1)
  }

  /** Over a socket that works the loop gets rid of everything in hand, in order. */
  lemma {:induction false} SocketTakesAll(s: State)
    requires s.connected && s.loop.Flushing?
    ensures var b := s.loop.backlog;
            && ValidRun(s, Sends(|b|))
            && After(s, Sends(|b|))
            == s.(loop := Selecting, delivered := s.delivered + (b + [s.loop.live]), hub := s.hub + (b + [s.loop.live]))
    decreases |s.loop.backlog|
  {
    var b, live := s.loop.backlog, s.loop.live;
    if b == [] {
      assert b + [live] == [live];
      RunOne(s, SendLive(true), []);
      assert [SendLive(true)] + [] == [SendLive(true)];
    } else {
      var s' := Do(s, FlushOne(true));
      SocketTakesAll(s');
      RunOne(s, FlushOne(true), Sends(|b| - 1));
      Assoc(s.delivered, [b[0]], b[1..] + [live]);
      Assoc(s.hub, [b[0]], b[1..] + [live]);
      assert [b[0]] + (b[1..] + [live]) == b + [live];
    }
  }

  /** A tick over a socket that works: the hub gets the oldest fifty of the backlog, or all of it,
      and then the live sample, in order; the rest of the backlog waits and nothing is lost. */
  lemma ConnectedTickDelivers(s: State, sample: Sample)
    requires s.connected && Enabled(s, Tick(sample))
    ensures var k := if |s.queue| <= 50 then |s.queue| else 50;
            var run := [Tick(sample)] + Sends(k);
            && ValidRun(s, run)
            && After(s, run)
            == s.(queue := s.queue[k..], collected := s.collected + [sample],
                  delivered := s.delivered + (s.queue[..k] + [sample]), hub := s.hub + (s.queue[..k] + [sample]))
  {
    var k := Chunk(s.queue, BACKFILL_MAX_PER_TICK);
    var s' := Do(s, Tick(sample));
    SocketTakesAll(s');
    RunOne(s, Tick(sample), Sends(k));
  }

  /** What a tick does while the gate is free and the socket is down, whatever a socket would have
      answered. */
  function OfflineTick(q: seq<Sample>, sample: Sample): seq<Step> {
    if q == [] then [Tick(sample), SendLive(true)]
    else if |q| == 1 then [Tick(sample), FlushOne(true), SendLive(true)]
    else [Tick(sample), FlushOne(true), FlushOne(true), SendLive(true)]
  }

  /** Without the socket the oldest sample goes out in a post, and all the others wait: those of the
      queue that were not drained, then the drained ones, the live sample last. Nothing is lost. */
  lemma OfflineTickPosts(s: State, sample: Sample)
    requires !s.connected && !s.gate && |s.queue| <= BUFFER_CAP && Enabled(s, Tick(sample))
    ensures var k := Chunk(s.queue, BACKFILL_MAX_PER_TICK);
            var run := OfflineTick(s.queue, sample);
            && ValidRun(s, run)
            && After(s, run)
            == s.(queue := if s.queue == [] then [] else s.queue[k..] + s.queue[1..k] + [sample],
                  collected := s.collected + [sample], gate := true,
                  posts := s.posts + [Post(if s.queue == [] then sample else s.queue[0], Running)])
  {
    var k := Chunk(s.queue, BACKFILL_MAX_PER_TICK);
    var run := OfflineTick(s.queue, sample);
    var s1 := Do(s, Tick(sample));
    if s.queue == [] {
      var s2 := Do(s1, SendLive(true));
      RunOne(s1, SendLive(true), []);
      RunOne(s, Tick(sample), [SendLive(true)] + []);
      assert run == [Tick(sample)] + ([SendLive(true)] + []);
      assert s2.queue == [] == s.queue;
    } else {
      var s2 := Do(s1, FlushOne(true));
      RestWaits(s2, s.queue[k..], s.queue[1..k], sample);
      var rest := if k == 1 then [SendLive(true)] else [FlushOne(true), SendLive(true)];
      RunOne(s1, FlushOne(true), rest);
      RunOne(s, Tick(sample), [FlushOne(true)] + rest);
      assert run == [Tick(sample)] + ([FlushOne(true)] + rest);
    }
  }

  /** The gate is held: what is left of the backlog and the live sample go back to the queue. */
  lemma RestWaits(s: State, q: seq<Sample>, b: seq<Sample>, live: Sample)
    requires !s.connected && s.gate && s.loop == Flushing(b, live) && s.queue == q && |q| + |b| < BUFFER_CAP
    ensures var rest := if b == [] then [SendLive(true)] else [FlushOne(true), SendLive(true)];
            ValidRun(s, rest) && After(s, rest) == s.(loop := Selecting, queue := q + b + [live])
  {
    var s1 := if b == [] then s else Do(s, FlushOne(true));
    Fitting(s, b);
    assert q + [] == q;
    assert s1 == s.(loop := Flushing([], live), queue := q + b);
    Fitting(s1, [live]);
    RunOne(s1, SendLive(true), []);
    assert [SendLive(true)] + [] == [SendLive(true)];
    if b != [] {
      RunOne(s, FlushOne(true), [SendLive(true)]);
      assert [FlushOne(true)] + [SendLive(true)] == [FlushOne(true), SendLive(true)];
    }
  }

  lemma Fitting(s: State, ps: seq<Sample>)
    requires |s.queue| + |ps| <= BUFFER_CAP
    ensures Requeue(s, ps) == s.(queue := s.queue + ps)
  {
    PushedAllSplits(s.queue, ps);
    NothingBefore(DroppedAll(s.queue, ps), QueuedAll(s.queue, ps), s.queue + ps);
    assert s.evicted + [] == s.evicted;
  }

  /** A post that ends is over once its result is read: the gate is free, and its sample is
      delivered, or back in the queue. */
  lemma PostCompletes(s: State, p: Sample, ok: bool)
    requires s.loop.Selecting? && s.posts == [Post(p, Running)] && s.channel.None? && |s.queue| < BUFFER_CAP
    ensures var run := [PostEnds(0, ok), PostReports(0), PostReleases(0), ReadResult];
            && ValidRun(s, run)
            && After(s, run)
            == s.(posts := [], gate := false, queue := if ok then s.queue else s.queue + [p],
                  delivered := if ok then s.delivered + [p] else s.delivered, hub := if ok then s.hub + [p] else s.hub)
  {
    var s1 := Do(s, PostEnds(0, ok));
    var s2 := Do(s1, PostReports(0));
    var s3 := Do(s2, PostReleases(0));
    Fitting(s3.(channel := None), [p]);
    assert s3.posts == [];
    RunOne(s3, ReadResult, []);
    RunOne(s2, PostReleases(0), [ReadResult] + []);
    RunOne(s1, PostReports(0), [PostReleases(0)] + ([ReadResult] + []));
    RunOne(s, PostEnds(0, ok), [PostReports(0)] + ([PostReleases(0)] + ([ReadResult] + [])));
    assert [PostEnds(0, ok)] + ([PostReports(0)] + ([PostReleases(0)] + ([ReadResult] + [])))
        == [PostEnds(0, ok), PostReports(0), PostReleases(0), ReadResult];
  }
}
