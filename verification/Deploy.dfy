/** One deploy on a container runtime or on Kubernetes (agent/internal/deploy/executor.go and
    executor_kube.go), its journal (journal.go) and the report a restarted agent makes from it.

    A run is the list of its effects in order; every result the agent does not control (commands,
    contexts that expire, the hub's answers, journal writes) is a field of Env. For a removal, a stop
    or a deletion the outcome is whether the container went down: the code ignores what these
    commands report. A crash between any two effects leaves a prefix of the list. */
module Deploy {
  import opened Options
  import opened Strings

  datatype Step = Fetch | Build | Run | Health | StopPrev | Publish | Succeed | Failed

  datatype Action = ReportStart | ReportSucceed | ReportFail | ReportRolledBack

  /** The hub's answer: accepted, rejected because the lease is lost, or no answer. */
  datatype Reply = Accepted | Rejected | Unreachable

  datatype Effect =
    | Saved(step: Step, ok: bool)              // a journal write
    | Forgot(ok: bool)                         // the journal file deleted
    | Posted(action: Action, reply: Reply)     // a report to the hub
    | Removed(name: string, ok: bool)          // rt.Remove
    | Started(name: string, ok: bool)          // rt.RunContainer
    | HealthPassed
    | Stopped(name: string, ok: bool)          // rt.Stop
    | Applied(name: string, ok: bool)          // kubectl apply; ok if the deployment is there after it
    | Deleted(name: string, ok: bool)          // kubectl delete deployment
    | Undone(name: string, ok: bool)           // kubectl rollout undo

  datatype Spec = Spec(name: string, prev: Option<string>)

  datatype Env = Env(
    specOk: bool,              // spec parsed, runtime or cluster found, image known
    startReply: Reply,
    secretsOk: bool,
    fetchOk: bool,             // git fetch or image pull; for Kubernetes, the env file
    buildOk: bool,             // image build; for Kubernetes, the manifest
    envFileOk: bool,           // the env file path lies under the state directory
    clearOk: bool,             // the removal of a leftover container before the start
    runOk: bool,               // container start; for Kubernetes, apply
    applyLeft: bool,           // for Kubernetes: an apply that fails has created the deployment all the same
    healthOk: bool,            // waitHealthy; for Kubernetes, rollout status
    undoOk: bool,              // rollout undo
    removeOk: bool,            // the removal or deletion of the new container on a failure
    drainOk: bool,             // the context outlives the drain delay
    stopOk: bool,              // the stop or deletion of the previous container
    endReply: Reply,           // the answer to the terminal report
    saveOk: Step -> bool,
    forgetOk: bool)

  // ----- the runs -----

  function Save(env: Env, step: Step): Effect {
    Saved(step, env.saveOk(step))
  }

  /** A terminal report: the journal entry goes once the hub has accepted it. */
  function Report(env: Env, action: Action): seq<Effect> {
    [Posted(action, env.endReply)] + if env.endReply == Accepted then [Forgot(env.forgetOk)] else []
  }

  function Finish(env: Env, action: Action): seq<Effect> {
    [Save(env, Failed)] + Report(env, action)
  }

  function Fail(env: Env): seq<Effect> {
    Finish(env, ReportFail)
  }

  /** A failure once the new container may exist: it is removed before anything is journaled. */
  function FailStarted(spec: Spec, env: Env): seq<Effect> {
    [Removed(spec.name, env.removeOk)] + Fail(env)
  }

  function StepsLeft(step: Step): nat {
    match step
    case Fetch => 5
    case Build => 4
    case Run => 3
    case Health => 2
    case StopPrev => 1
    case _ => 0
  }

  /** The previous container, unless the new one bears its name. */
  predicate HasOther(spec: Spec) {
    spec.prev.Some? && spec.prev.value != spec.name
  }

  /** What a container run still does once `step` has been journaled. */
  function From(spec: Spec, env: Env, step: Step): seq<Effect>
    decreases StepsLeft(step)
  {
    match step
    case Fetch =>
      if !env.fetchOk then Fail(env) else [Save(env, Build)] + From(spec, env, Build)
    case Build =>
      if !env.buildOk then Fail(env) else [Save(env, Run)] + From(spec, env, Run)
    case Run =>
      if !env.envFileOk then Fail(env)
      else if !env.runOk then [Removed(spec.name, env.clearOk), Started(spec.name, false)] + Fail(env)
      else [Removed(spec.name, env.clearOk), Started(spec.name, true), Save(env, Health)] + From(spec, env, Health)
    case Health =>
      if !env.healthOk then FailStarted(spec, env)
      else [HealthPassed, Save(env, StopPrev)] + From(spec, env, StopPrev)
    case StopPrev =>
      if !env.drainOk then FailStarted(spec, env)
      else if HasOther(spec) then [Stopped(spec.prev.value, env.stopOk), Save(env, Succeed)] + From(spec, env, Succeed)
      else [Save(env, Succeed)] + From(spec, env, Succeed)
    case _ => Report(env, ReportSucceed)
  }

  function Leased(spec: Spec, env: Env): seq<Effect> {
    if !env.secretsOk then Fail(env) else [Save(env, Fetch)] + From(spec, env, Fetch)
  }

  function Unleased(env: Env): seq<Effect> {
    [Posted(ReportStart, env.startReply), Forgot(env.forgetOk)]
  }

  /** Claiming: without a lease nothing runs and any stale entry is dropped. */
  function Claimed(env: Env, leased: seq<Effect>): seq<Effect> {
    if !env.specOk then Fail(env)
    else if env.startReply != Accepted then Unleased(env)
    else [Posted(ReportStart, env.startReply)] + leased
  }

  /** `Execute` on a container runtime. */
  function ContainerRun(spec: Spec, env: Env): seq<Effect> {
    Claimed(env, Leased(spec, env))
  }

  /** What a Kubernetes run still does once `step` has been journaled. */
  function KubeFrom(spec: Spec, env: Env, step: Step): seq<Effect>
    decreases StepsLeft(step)
  {
    match step
    case Fetch =>
      if !env.fetchOk then Fail(env) else [Save(env, Run)] + KubeFrom(spec, env, Run)
    case Run =>
      if !env.buildOk then Fail(env)
      else if !env.runOk then [Applied(spec.name, env.applyLeft), Deleted(spec.name, env.removeOk)] + Fail(env)
      else [Applied(spec.name, true), Save(env, Health)] + KubeFrom(spec, env, Health)
    case Health =>
      if env.healthOk then [HealthPassed, Save(env, StopPrev)] + KubeFrom(spec, env, StopPrev)
      else if env.undoOk then [Undone(spec.name, true)] + Finish(env, ReportRolledBack)
      else [Undone(spec.name, false), Deleted(spec.name, env.removeOk)] + Fail(env)
    case StopPrev =>
      if !env.drainOk then Fail(env)
      else if HasOther(spec) then [Deleted(spec.prev.value, env.stopOk), Save(env, Succeed)] + KubeFrom(spec, env, Succeed)
      else [Save(env, Succeed)] + KubeFrom(spec, env, Succeed)
    case _ => Report(env, ReportSucceed)
  }

  function KubeLeased(spec: Spec, env: Env): seq<Effect> {
    if !env.secretsOk then Fail(env) else [Save(env, Fetch)] + KubeFrom(spec, env, Fetch)
  }

  function Folded(spec: Spec, fold: string -> string): Spec {
    Spec(fold(spec.name), if spec.prev.Some? then Some(fold(spec.prev.value)) else None)
  }

  /** `executeKube`; `fold` turns a container name into a deployment name. */
  function KubeRun(spec: Spec, fold: string -> string, env: Env): seq<Effect> {
    Claimed(env, KubeLeased(Folded(spec, fold), env))
  }

  // ----- the code -----

  class Executor {
    /** Every effect so far. */
    var trace: seq<Effect>

    constructor ()
      ensures trace == []
    {
      trace := [];
    }

    method Do(e: Effect)
      modifies this
      ensures trace == old(trace) + [e]
    {
      trace := trace + [e];
    }

    method SaveJournal(env: Env, step: Step)
      modifies this
      ensures trace == old(trace) + [Save(env, step)]
    {
      Do(Saved(step, env.saveOk(step)));
    }

    method PostEnd(env: Env, action: Action)
      modifies this
      ensures trace == old(trace) + Report(env, action)
    {
      Do(Posted(action, env.endReply));
      if env.endReply == Accepted { Do(Forgot(env.forgetOk)); }
    }

    method FinishOutcome(env: Env, action: Action)
      modifies this
      ensures trace == old(trace) + Finish(env, action)
    {
      Assoc(trace, [Save(env, Failed)], Report(env, action));
      SaveJournal(env, Failed);
      PostEnd(env, action);
    }

    method FailStep(spec: Spec, env: Env, started: bool)
      modifies this
      ensures trace == old(trace) + if started then FailStarted(spec, env) else Fail(env)
    {
      Assoc(trace, [Removed(spec.name, env.removeOk)], Fail(env));
      if started { Do(Removed(spec.name, env.removeOk)); }
      FinishOutcome(env, ReportFail);
    }

    method Start(env: Env) returns (ok: bool)
      modifies this
      ensures ok == (env.startReply == Accepted)
      ensures ok ==> trace == old(trace) + [Posted(ReportStart, env.startReply)]
      ensures !ok ==> trace == old(trace) + Unleased(env)
    {
      Do(Posted(ReportStart, env.startReply));
      ok := env.startReply == Accepted;
      if !ok { Do(Forgot(env.forgetOk)); }
    }

    method StartContainer(spec: Spec, env: Env) returns (ok: bool)
      modifies this
      ensures ok == (env.envFileOk && env.runOk)
      ensures trace == old(trace) + if env.envFileOk then [Removed(spec.name, env.clearOk), Started(spec.name, env.runOk)] else []
    {
      if !env.envFileOk { return false; }
      Do(Removed(spec.name, env.clearOk));
      Do(Started(spec.name, env.runOk));
      ok := env.runOk;
    }

    method Execute(spec: Spec, env: Env)
      modifies this
      ensures trace == old(trace) + ContainerRun(spec, env)
    {
      if !env.specOk { FinishOutcome(env, ReportFail); return; }
      Assoc(trace, [Posted(ReportStart, env.startReply)], Leased(spec, env));
      var leased := Start(env);
      if !leased { return; }
      RunLeased(spec, env);
    }

    /** Secrets, fetch and build; nothing has been started yet. */
    method RunLeased(spec: Spec, env: Env)
      modifies this
      ensures trace == old(trace) + Leased(spec, env)
    {
      ghost var goal := trace + Leased(spec, env);
      if !env.secretsOk { FailStep(spec, env, false); return; }
      Assoc(trace, [Save(env, Fetch)], From(spec, env, Fetch));
      SaveJournal(env, Fetch);
      assert goal == trace + From(spec, env, Fetch);
      if !env.fetchOk { FailStep(spec, env, false); return; }
      Assoc(trace, [Save(env, Build)], From(spec, env, Build));
      SaveJournal(env, Build);
      assert goal == trace + From(spec, env, Build);
      if !env.buildOk { FailStep(spec, env, false); return; }
      Assoc(trace, [Save(env, Run)], From(spec, env, Run));
      SaveJournal(env, Run);
      Launch(spec, env);
    }

    /** From the container start on; once it has started, a failure removes it. */
    method Launch(spec: Spec, env: Env)
      modifies this
      ensures trace == old(trace) + From(spec, env, Run)
    {
      ghost var goal := trace + From(spec, env, Run);
      ghost var ups := [Removed(spec.name, env.clearOk), Started(spec.name, env.runOk)];
      Assoc(trace, ups, Fail(env));
      var started := StartContainer(spec, env);
      if !started { FailStep(spec, env, false); return; }
      SaveJournal(env, Health);
      assert goal == trace + From(spec, env, Health);
      Swap(spec, env, started);
    }

    /** From the health check on. */
    method Swap(spec: Spec, env: Env, started: bool)
      requires started
      modifies this
      ensures trace == old(trace) + From(spec, env, Health)
    {
      ghost var goal := trace + From(spec, env, Health);
      if !env.healthOk { FailStep(spec, env, started); return; }
      Do(HealthPassed);
      SaveJournal(env, StopPrev);
      assert goal == trace + From(spec, env, StopPrev);
      if !env.drainOk { FailStep(spec, env, started); return; }
      if HasOther(spec) { Do(Stopped(spec.prev.value, env.stopOk)); }
      SaveJournal(env, Succeed);
      assert goal == trace + From(spec, env, Succeed);
      PostEnd(env, ReportSucceed);
    }

    /** The same on Kubernetes; the cluster pulls the image itself. */
    method ExecuteKube(spec: Spec, fold: string -> string, env: Env)
      modifies this
      ensures trace == old(trace) + KubeRun(spec, fold, env)
    {
      if !env.specOk { FinishOutcome(env, ReportFail); return; }
      var named := Folded(spec, fold);
      Assoc(trace, [Posted(ReportStart, env.startReply)], KubeLeased(named, env));
      var leased := Start(env);
      if !leased { return; }
      ApplyLeased(named, env);
    }

    method ApplyLeased(spec: Spec, env: Env)
      modifies this
      ensures trace == old(trace) + KubeLeased(spec, env)
    {
      ghost var goal := trace + KubeLeased(spec, env);
      if !env.secretsOk { FinishOutcome(env, ReportFail); return; }
      Assoc(trace, [Save(env, Fetch)], KubeFrom(spec, env, Fetch));
      SaveJournal(env, Fetch);
      assert goal == trace + KubeFrom(spec, env, Fetch);
      if !env.fetchOk { FinishOutcome(env, ReportFail); return; }
      Assoc(trace, [Save(env, Run)], KubeFrom(spec, env, Run));
      SaveJournal(env, Run);
      Apply(spec, env);
    }

    method Apply(spec: Spec, env: Env)
      modifies this
      ensures trace == old(trace) + KubeFrom(spec, env, Run)
    {
      ghost var goal := trace + KubeFrom(spec, env, Run);
      if !env.buildOk { FinishOutcome(env, ReportFail); return; }
      Do(Applied(spec.name, env.runOk || env.applyLeft));
      if !env.runOk {
        Do(Deleted(spec.name, env.removeOk));
        FinishOutcome(env, ReportFail);
        return;
      }
      SaveJournal(env, Health);
      assert goal == trace + KubeFrom(spec, env, Health);
      Rollout(spec, env);
    }

    /** From the rollout status on. */
    method Rollout(spec: Spec, env: Env)
      modifies this
      ensures trace == old(trace) + KubeFrom(spec, env, Health)
    {
      ghost var goal := trace + KubeFrom(spec, env, Health);
      if !env.healthOk {
        Do(Undone(spec.name, env.undoOk));
        if env.undoOk { FinishOutcome(env, ReportRolledBack); return; }
        Do(Deleted(spec.name, env.removeOk));
        FinishOutcome(env, ReportFail);
        return;
      }
      Do(HealthPassed);
      SaveJournal(env, StopPrev);
      assert goal == trace + KubeFrom(spec, env, StopPrev);
      if !env.drainOk { FinishOutcome(env, ReportFail); return; }
      if HasOther(spec) { Do(Deleted(spec.prev.value, env.stopOk)); }
      SaveJournal(env, Succeed);
      assert goal == trace + KubeFrom(spec, env, Succeed);
      PostEnd(env, ReportSucceed);
    }
  }
  // ----- what the effects do -----

  /** The containers serving, whether the new one has passed health, the journal's entry for the
      job, whether every journal write so far succeeded, whether one did (before that the entry is
      what an earlier attempt left), and the report sent. */
  datatype World = World(up: set<string>, healthy: bool, journal: Option<Step>, saved: bool, own: bool,
                         reported: Option<Action>, settled: bool)

  /** A command that fails leaves the containers as they are. */
  function Apply(w: World, e: Effect): World {
    match e
    case Saved(step, ok) => if ok then w.(journal := Some(step), own := true) else w.(saved := false)
    case Forgot(ok) => if ok then w.(journal := None) else w
    case Posted(action, reply) =>
      if action == ReportStart then w
      else w.(reported := Some(action), settled := w.settled || reply == Accepted)
    case Removed(name, ok) => if ok then w.(up := w.up - {name}) else w
    case Stopped(name, ok) => if ok then w.(up := w.up - {name}) else w
    case Deleted(name, ok) => if ok then w.(up := w.up - {name}) else w
    case Started(name, ok) => if ok then w.(up := w.up + {name}) else w
    case Applied(name, ok) => if ok then w.(up := w.up + {name}) else w
    case HealthPassed => w.(healthy := true)
    case Undone(name, ok) => w
  }

  function After(w: World, trace: seq<Effect>): World
    decreases |trace|
  {
    if trace == [] then w else After(Apply(w, trace[0]), trace[1..])
  }

  /** The outcome a restarted agent reports for a journaled step. */
  datatype Outcome = Succeeded | Broken

  function Reconciled(step: Step): Outcome {
    if step == StopPrev || step == Succeed || step == Publish then Succeeded else Broken
  }

  /** The previous container still serves. */
  predicate Kept(spec: Spec, w: World) {
    HasOther(spec) ==> spec.prev.value in w.up
  }

  /** The restarted agent would report failure although the previous container is gone. */
  predicate Misreported(spec: Spec, w: World) {
    SaysBroken(w.journal) && !Kept(spec, w)
  }

  /** The zero-gap rule and what reports may claim. */
  predicate ZeroGap(spec: Spec, w: World) {
    && (!Kept(spec, w) ==> w.healthy)
    && (w.reported == Some(ReportSucceed) ==> w.healthy && spec.name in w.up)
    && (w.reported.Some? && w.reported != Some(ReportSucceed) ==> Kept(spec, w))
  }

  predicate SaysSucceeded(j: Option<Step>) {
    j.Some? && Reconciled(j.value) == Succeeded
  }

  predicate SaysBroken(j: Option<Step>) {
    j.Some? && Reconciled(j.value) == Broken
  }

  /** A crash here reconciles to the truth, if every journal write so far succeeded; and an entry
      of this attempt reconciles to success only after health passed, whatever the writes did. */
  predicate CrashSafe(spec: Spec, w: World) {
    && (w.own && SaysSucceeded(w.journal) ==> w.healthy)
    && (w.saved ==> !Misreported(spec, w))
    && (w.saved && w.journal.None? ==> w.settled || Kept(spec, w))
  }

  predicate Safe(spec: Spec, w: World) {
    ZeroGap(spec, w) && CrashSafe(spec, w)
  }

  // ----- every prefix of a run -----

  /** A condition holds at every crash point of the effects from w on. */
  ghost predicate Always(good: World -> bool, w: World, trace: seq<Effect>)
    decreases |trace|
  {
    good(w) && (trace == [] || Always(good, Apply(w, trace[0]), trace[1..]))
  }

  lemma AlwaysMore(good: World -> bool, w: World, e: Effect, rest: seq<Effect>)
    ensures Always(good, w, [e] + rest) <==> good(w) && Always(good, Apply(w, e), rest)
  {
    assert ([e] + rest)[1..] == rest;
  }

  lemma {:induction false} AlwaysPrefixes(good: World -> bool, w: World, trace: seq<Effect>, k: nat)
    requires Always(good, w, trace) && k <= |trace|
    ensures good(After(w, trace[..k]))
    decreases |trace|
  {
    if k > 0 {
      AlwaysPrefixes(good, Apply(w, trace[0]), trace[1..], k - 1);
      assert trace[..k][1..] == trace[1..][..k - 1];
    }
  }

  /** Before the job: the previous container serves; the journal may hold any entry that an
      earlier attempt left. */
  predicate Initial(spec: Spec, w: World) {
    Kept(spec, w) && !w.healthy && w.saved && !w.own && w.reported.None? && !w.settled
  }

  function Goal(spec: Spec): World -> bool {
    w => Safe(spec, w)
  }

  /** Where a failure may still be reported. */
  predicate Open(spec: Spec, w: World) {
    Safe(spec, w) && Kept(spec, w) && w.reported.None?
  }

  lemma ReportSafe(spec: Spec, env: Env, action: Action, w: World)
    requires Safe(spec, w) && action != ReportStart
    requires if action == ReportSucceed then w.healthy && spec.name in w.up else Kept(spec, w)
    ensures Always(Goal(spec), w, Report(env, action))
  {
    var p, g := Posted(action, env.endReply), Forgot(env.forgetOk);
    AlwaysMore(Goal(spec), w, p, if env.endReply == Accepted then [g] else []);
    if env.endReply == Accepted {
      AlwaysMore(Goal(spec), Apply(w, p), g, []);
    }
  }

  lemma FinishSafe(spec: Spec, env: Env, action: Action, w: World)
    requires Open(spec, w) && action != ReportStart && action != ReportSucceed
    ensures Always(Goal(spec), w, Finish(env, action))
  {
    AlwaysMore(Goal(spec), w, Save(env, Failed), Report(env, action));
    ReportSafe(spec, env, action, Apply(w, Save(env, Failed)));
  }

  lemma FailStartedSafe(spec: Spec, env: Env, w: World)
    requires Open(spec, w)
    ensures Always(Goal(spec), w, FailStarted(spec, env))
  {
    var e := Removed(spec.name, env.removeOk);
    AlwaysMore(Goal(spec), w, e, Fail(env));
    FinishSafe(spec, env, ReportFail, Apply(w, e));
  }

  /** Between steps of the run: nothing has been taken down, the entry (if its write succeeded)
      names a step up to this one, and the new container serves from the health step on. */
  predicate At(spec: Spec, w: World, step: Step) {
    && Open(spec, w)
    && (StepsLeft(step) <= 2 ==> spec.name in w.up)
    && (StepsLeft(step) <= 1 ==> w.healthy)
    && (w.saved ==> w.journal == Some(step))
  }

  lemma SaveAt(spec: Spec, env: Env, w: World, step: Step)
    requires Open(spec, w) && StepsLeft(step) > 0
    requires (StepsLeft(step) <= 2 ==> spec.name in w.up) && (StepsLeft(step) <= 1 ==> w.healthy)
    ensures At(spec, Apply(w, Save(env, step)), step)
  {}

  lemma SucceedSafe(spec: Spec, env: Env, w: World)
    requires Safe(spec, w) && w.healthy && spec.name in w.up && w.reported.None?
    requires w.saved ==> w.journal == Some(StopPrev)
    ensures Always(Goal(spec), w, [Save(env, Succeed)] + Report(env, ReportSucceed))
  {
    AlwaysMore(Goal(spec), w, Save(env, Succeed), Report(env, ReportSucceed));
    ReportSafe(spec, env, ReportSucceed, Apply(w, Save(env, Succeed)));
  }

  lemma StopSafe(spec: Spec, env: Env, w: World, stop: Effect)
    requires At(spec, w, StopPrev) && HasOther(spec)
    requires stop == Stopped(spec.prev.value, env.stopOk) || stop == Deleted(spec.prev.value, env.stopOk)
    ensures Always(Goal(spec), w, [stop, Save(env, Succeed)] + Report(env, ReportSucceed))
  {
    var rest := [Save(env, Succeed)] + Report(env, ReportSucceed);
    assert [stop, Save(env, Succeed)] + Report(env, ReportSucceed) == [stop] + rest;
    AlwaysMore(Goal(spec), w, stop, rest);
    SucceedSafe(spec, env, Apply(w, stop));
  }

  lemma AlwaysMore2(good: World -> bool, w: World, e: Effect, f: Effect, rest: seq<Effect>)
    ensures Always(good, w, [e, f] + rest) <==> good(w) && good(Apply(w, e)) && Always(good, Apply(Apply(w, e), f), rest)
  {
    assert [e, f] + rest == [e] + ([f] + rest);
    AlwaysMore(good, w, e, [f] + rest);
    AlwaysMore(good, Apply(w, e), f, rest);
  }

  lemma AlwaysMore3(good: World -> bool, w: World, e: Effect, f: Effect, g: Effect, rest: seq<Effect>)
    ensures Always(good, w, [e, f, g] + rest) <==>
              (good(w) && good(Apply(w, e)) && good(Apply(Apply(w, e), f)) && Always(good, Apply(Apply(Apply(w, e), f), g), rest))
  {
    assert [e, f, g] + rest == [e] + ([f, g] + rest);
    AlwaysMore(good, w, e, [f, g] + rest);
    AlwaysMore2(good, Apply(w, e), f, g, rest);
  }

  lemma StopPrevSafe(spec: Spec, env: Env, w: World)
    requires At(spec, w, StopPrev)
    ensures Always(Goal(spec), w, From(spec, env, StopPrev)) && Always(Goal(spec), w, KubeFrom(spec, env, StopPrev))
  {
    if !env.drainOk {
      FailStartedSafe(spec, env, w);
      FinishSafe(spec, env, ReportFail, w);
    } else if HasOther(spec) {
      StopSafe(spec, env, w, Stopped(spec.prev.value, env.stopOk));
      StopSafe(spec, env, w, Deleted(spec.prev.value, env.stopOk));
    } else {
      SucceedSafe(spec, env, w);
    }
  }

  lemma HealthSafe(spec: Spec, env: Env, w: World)
    requires At(spec, w, Health)
    ensures Always(Goal(spec), w, From(spec, env, Health))
  {
    if !env.healthOk {
      FailStartedSafe(spec, env, w);
    } else {
      AlwaysMore2(Goal(spec), w, HealthPassed, Save(env, StopPrev), From(spec, env, StopPrev));
      SaveAt(spec, env, Apply(w, HealthPassed), StopPrev);
      StopPrevSafe(spec, env, Apply(Apply(w, HealthPassed), Save(env, StopPrev)));
    }
  }

  lemma RunFails(spec: Spec, env: Env, w: World, e: Effect, f: Effect)
    requires Open(spec, w) && Open(spec, Apply(w, e)) && Open(spec, Apply(Apply(w, e), f))
    ensures Always(Goal(spec), w, [e, f] + Fail(env))
  {
    AlwaysMore2(Goal(spec), w, e, f, Fail(env));
    FinishSafe(spec, env, ReportFail, Apply(Apply(w, e), f));
  }

  lemma RunSafe(spec: Spec, env: Env, w: World)
    requires At(spec, w, Run)
    ensures Always(Goal(spec), w, From(spec, env, Run))
  {
    if !env.envFileOk {
      FinishSafe(spec, env, ReportFail, w);
    } else if !env.runOk {
      RunFails(spec, env, w, Removed(spec.name, env.clearOk), Started(spec.name, false));
    } else {
      AlwaysMore3(Goal(spec), w, Removed(spec.name, env.clearOk), Started(spec.name, true), Save(env, Health), From(spec, env, Health));
      var w' := Apply(Apply(w, Removed(spec.name, env.clearOk)), Started(spec.name, true));
      SaveAt(spec, env, w', Health);
      HealthSafe(spec, env, Apply(w', Save(env, Health)));
    }
  }

  lemma EarlySafe(spec: Spec, env: Env, w: World, step: Step)
    requires step in [Fetch, Build] && At(spec, w, step)
    ensures Always(Goal(spec), w, From(spec, env, step))
    decreases StepsLeft(step)
  {
    var next := if step == Fetch then Build else Run;
    FinishSafe(spec, env, ReportFail, w);
    AlwaysMore(Goal(spec), w, Save(env, next), From(spec, env, next));
    SaveAt(spec, env, w, next);
    if next == Build { EarlySafe(spec, env, Apply(w, Save(env, Build)), Build); } else { RunSafe(spec, env, Apply(w, Save(env, Run))); }
  }

  lemma LeasedSafe(spec: Spec, env: Env, w: World)
    requires Open(spec, w)
    ensures Always(Goal(spec), w, Leased(spec, env))
  {
    FinishSafe(spec, env, ReportFail, w);
    AlwaysMore(Goal(spec), w, Save(env, Fetch), From(spec, env, Fetch));
    SaveAt(spec, env, w, Fetch);
    EarlySafe(spec, env, Apply(w, Save(env, Fetch)), Fetch);
  }

  lemma ClaimedSafe(spec: Spec, env: Env, w: World, leased: seq<Effect>)
    requires Initial(spec, w) && Always(Goal(spec), w, leased)
    ensures Always(Goal(spec), w, Claimed(env, leased))
  {
    var start := Posted(ReportStart, env.startReply);
    if !env.specOk {
      FinishSafe(spec, env, ReportFail, w);
    } else if env.startReply != Accepted {
      AlwaysMore2(Goal(spec), w, start, Forgot(env.forgetOk), []);
      assert Unleased(env) == [start, Forgot(env.forgetOk)] + [];
    } else {
      AlwaysMore(Goal(spec), w, start, leased);
    }
  }

  /** On a container runtime, whatever fails and wherever the agent crashes: the previous container
      is gone only after health passed and never when failure is or was reported; a success report
      means the new container serves; and the journal reconciles truthfully. */
  lemma ContainerRunSafe(spec: Spec, env: Env, w: World, k: nat)
    requires Initial(spec, w) && k <= |ContainerRun(spec, env)|
    ensures Safe(spec, After(w, ContainerRun(spec, env)[..k]))
  {
    LeasedSafe(spec, env, w);
    ClaimedSafe(spec, env, w, Leased(spec, env));
    AlwaysPrefixes(Goal(spec), w, ContainerRun(spec, env), k);
  }

  lemma KubeHealthSafe(spec: Spec, env: Env, w: World)
    requires At(spec, w, Health)
    ensures Always(Goal(spec), w, KubeFrom(spec, env, Health))
  {
    if env.healthOk {
      AlwaysMore2(Goal(spec), w, HealthPassed, Save(env, StopPrev), KubeFrom(spec, env, StopPrev));
      SaveAt(spec, env, Apply(w, HealthPassed), StopPrev);
      StopPrevSafe(spec, env, Apply(Apply(w, HealthPassed), Save(env, StopPrev)));
    } else if env.undoOk {
      AlwaysMore(Goal(spec), w, Undone(spec.name, true), Finish(env, ReportRolledBack));
      FinishSafe(spec, env, ReportRolledBack, Apply(w, Undone(spec.name, true)));
    } else {
      RunFails(spec, env, w, Undone(spec.name, false), Deleted(spec.name, env.removeOk));
    }
  }

  lemma KubeApplySafe(spec: Spec, env: Env, w: World)
    requires At(spec, w, Run)
    ensures Always(Goal(spec), w, KubeFrom(spec, env, Run))
  {
    if !env.buildOk {
      FinishSafe(spec, env, ReportFail, w);
    } else if !env.runOk {
      RunFails(spec, env, w, Applied(spec.name, env.applyLeft), Deleted(spec.name, env.removeOk));
    } else {
      AlwaysMore2(Goal(spec), w, Applied(spec.name, true), Save(env, Health), KubeFrom(spec, env, Health));
      SaveAt(spec, env, Apply(w, Applied(spec.name, true)), Health);
      KubeHealthSafe(spec, env, Apply(Apply(w, Applied(spec.name, true)), Save(env, Health)));
    }
  }

  lemma KubeLeasedSafe(spec: Spec, env: Env, w: World)
    requires Open(spec, w)
    ensures Always(Goal(spec), w, KubeLeased(spec, env))
  {
    FinishSafe(spec, env, ReportFail, w);
    AlwaysMore(Goal(spec), w, Save(env, Fetch), KubeFrom(spec, env, Fetch));
    SaveAt(spec, env, w, Fetch);
    var w' := Apply(w, Save(env, Fetch));
    FinishSafe(spec, env, ReportFail, w');
    AlwaysMore(Goal(spec), w', Save(env, Run), KubeFrom(spec, env, Run));
    SaveAt(spec, env, w', Run);
    KubeApplySafe(spec, env, Apply(w', Save(env, Run)));
  }

  /** The same on Kubernetes, for deployments under their folded names. */
  lemma KubeRunSafe(spec: Spec, fold: string -> string, env: Env, w: World, k: nat)
    requires Initial(Folded(spec, fold), w) && k <= |KubeRun(spec, fold, env)|
    ensures Safe(Folded(spec, fold), After(w, KubeRun(spec, fold, env)[..k]))
  {
    var named := Folded(spec, fold);
    KubeLeasedSafe(named, env, w);
    ClaimedSafe(named, env, w, KubeLeased(named, env));
    AlwaysPrefixes(Goal(named), w, KubeRun(spec, fold, env), k);
  }

  // ----- how a run ends -----

  lemma AfterMore(w: World, e: Effect, rest: seq<Effect>)
    ensures After(w, [e] + rest) == After(Apply(w, e), rest)
  {
    assert ([e] + rest)[1..] == rest;
  }

  lemma AfterMore2(w: World, e: Effect, f: Effect, rest: seq<Effect>)
    ensures After(w, [e, f] + rest) == After(Apply(Apply(w, e), f), rest)
  {
    assert [e, f] + rest == [e] + ([f] + rest);
    AfterMore(w, e, [f] + rest);
    AfterMore(Apply(w, e), f, rest);
  }

  lemma AfterMore3(w: World, e: Effect, f: Effect, g: Effect, rest: seq<Effect>)
    ensures After(w, [e, f, g] + rest) == After(Apply(Apply(Apply(w, e), f), g), rest)
  {
    assert [e, f, g] + rest == [e] + ([f, g] + rest);
    AfterMore(w, e, [f, g] + rest);
    AfterMore2(Apply(w, e), f, g, rest);
  }

  /** A finished run: what was reported, whether the new container serves and the previous one is
      gone, whether the hub has the report, and what the journal is left with. */
  predicate Ended(spec: Spec, env: Env, w: World, action: Action, up: bool, gone: bool) {
    && w.reported == Some(action)
    && (spec.name in w.up <==> up)
    && (HasOther(spec) ==> (spec.prev.value !in w.up <==> gone))
    && (w.settled <==> env.endReply == Accepted)
    && (env.endReply == Accepted && env.forgetOk ==> w.journal.None?)
    && (!(env.endReply == Accepted && env.forgetOk) && env.saveOk(LastStep(action)) ==> w.journal == Some(LastStep(action)))
  }

  function LastStep(action: Action): Step {
    if action == ReportSucceed then Succeed else Failed
  }

  lemma ReportEnds(spec: Spec, env: Env, w: World, action: Action)
    requires action != ReportStart && !w.settled
    ensures var e := Apply(w, Save(env, LastStep(action)));
            Ended(spec, env, After(e, Report(env, action)), action, spec.name in w.up, HasOther(spec) && spec.prev.value !in w.up)
  {
    var e := Apply(w, Save(env, LastStep(action)));
    var p := Posted(action, env.endReply);
    AfterMore(e, p, if env.endReply == Accepted then [Forgot(env.forgetOk)] else []);
    if env.endReply == Accepted {
      AfterMore(Apply(e, p), Forgot(env.forgetOk), []);
    }
  }

  lemma FinishEnds(spec: Spec, env: Env, w: World, action: Action)
    requires (action == ReportFail || action == ReportRolledBack) && !w.settled
    ensures Ended(spec, env, After(w, Finish(env, action)), action, spec.name in w.up, HasOther(spec) && spec.prev.value !in w.up)
  {
    AfterMore(w, Save(env, Failed), Report(env, action));
    ReportEnds(spec, env, w, action);
  }

  lemma FailStartedEnds(spec: Spec, env: Env, w: World)
    requires !w.settled && Kept(spec, w) && spec.name in w.up
    ensures Ended(spec, env, After(w, FailStarted(spec, env)), ReportFail, !env.removeOk, false)
  {
    AfterMore(w, Removed(spec.name, env.removeOk), Fail(env));
    FinishEnds(spec, env, Apply(w, Removed(spec.name, env.removeOk)), ReportFail);
  }

  lemma SucceedEnds(spec: Spec, env: Env, w: World)
    requires !w.settled && spec.name in w.up
    ensures Ended(spec, env, After(w, [Save(env, Succeed)] + Report(env, ReportSucceed)), ReportSucceed,
                  true, HasOther(spec) && spec.prev.value !in w.up)
  {
    AfterMore(w, Save(env, Succeed), Report(env, ReportSucceed));
    ReportEnds(spec, env, w, ReportSucceed);
  }

  lemma StopEnds(spec: Spec, env: Env, w: World, stop: Effect)
    requires !w.settled && Kept(spec, w) && spec.name in w.up && HasOther(spec)
    requires stop == Stopped(spec.prev.value, env.stopOk) || stop == Deleted(spec.prev.value, env.stopOk)
    ensures Ended(spec, env, After(w, [stop, Save(env, Succeed)] + Report(env, ReportSucceed)), ReportSucceed, true, env.stopOk)
  {
    var rest := [Save(env, Succeed)] + Report(env, ReportSucceed);
    assert [stop, Save(env, Succeed)] + Report(env, ReportSucceed) == [stop] + rest;
    AfterMore(w, stop, rest);
    SucceedEnds(spec, env, Apply(w, stop));
  }

  lemma HealthEnds(spec: Spec, env: Env, w: World)
    requires !w.settled && Kept(spec, w) && spec.name in w.up
    ensures var ok := env.healthOk && env.drainOk;
            Ended(spec, env, After(w, From(spec, env, Health)), if ok then ReportSucceed else ReportFail,
                  ok || !env.removeOk, ok && HasOther(spec) && env.stopOk)
  {
    if !env.healthOk {
      FailStartedEnds(spec, env, w);
    } else {
      AfterMore2(w, HealthPassed, Save(env, StopPrev), From(spec, env, StopPrev));
      var w' := Apply(Apply(w, HealthPassed), Save(env, StopPrev));
      if !env.drainOk {
        FailStartedEnds(spec, env, w');
      } else if HasOther(spec) {
        StopEnds(spec, env, w', Stopped(spec.prev.value, env.stopOk));
      } else {
        SucceedEnds(spec, env, w');
      }
    }
  }

  /** Every step up to the container start works. */
  predicate Launches(env: Env) {
    env.secretsOk && env.fetchOk && env.buildOk && env.envFileOk && env.runOk
  }

  predicate Succeeds(env: Env) {
    Launches(env) && env.healthOk && env.drainOk
  }

  lemma RunEnds(spec: Spec, env: Env, w: World)
    requires !w.settled && Kept(spec, w) && spec.name !in w.up
    ensures var launched := env.envFileOk && env.runOk;
            var ok := launched && env.healthOk && env.drainOk;
            Ended(spec, env, After(w, From(spec, env, Run)), if ok then ReportSucceed else ReportFail,
                  ok || (launched && !env.removeOk), ok && HasOther(spec) && env.stopOk)
  {
    var r := Removed(spec.name, env.clearOk);
    if !env.envFileOk {
      FinishEnds(spec, env, w, ReportFail);
    } else if !env.runOk {
      AfterMore2(w, r, Started(spec.name, false), Fail(env));
      FinishEnds(spec, env, Apply(Apply(w, r), Started(spec.name, false)), ReportFail);
    } else {
      AfterMore3(w, r, Started(spec.name, true), Save(env, Health), From(spec, env, Health));
      HealthEnds(spec, env, Apply(Apply(Apply(w, r), Started(spec.name, true)), Save(env, Health)));
    }
  }

  lemma BuildEnds(spec: Spec, env: Env, w: World)
    requires !w.settled && Kept(spec, w) && spec.name !in w.up
    ensures var launched := env.buildOk && env.envFileOk && env.runOk;
            var ok := launched && env.healthOk && env.drainOk;
            Ended(spec, env, After(w, From(spec, env, Build)), if ok then ReportSucceed else ReportFail,
                  ok || (launched && !env.removeOk), ok && HasOther(spec) && env.stopOk)
  {
    if env.buildOk {
      AfterMore(w, Save(env, Run), From(spec, env, Run));
      RunEnds(spec, env, Apply(w, Save(env, Run)));
    } else {
      FinishEnds(spec, env, w, ReportFail);
    }
  }

  lemma FetchEnds(spec: Spec, env: Env, w: World)
    requires !w.settled && Kept(spec, w) && spec.name !in w.up
    ensures var launched := env.fetchOk && env.buildOk && env.envFileOk && env.runOk;
            var ok := launched && env.healthOk && env.drainOk;
            Ended(spec, env, After(w, From(spec, env, Fetch)), if ok then ReportSucceed else ReportFail,
                  ok || (launched && !env.removeOk), ok && HasOther(spec) && env.stopOk)
  {
    if env.fetchOk {
      AfterMore(w, Save(env, Build), From(spec, env, Build));
      BuildEnds(spec, env, Apply(w, Save(env, Build)));
    } else {
      FinishEnds(spec, env, w, ReportFail);
    }
  }

  lemma LeasedEnds(spec: Spec, env: Env, w: World)
    requires !w.settled && Kept(spec, w) && spec.name !in w.up
    ensures Ended(spec, env, After(w, Leased(spec, env)), if Succeeds(env) then ReportSucceed else ReportFail,
                  Succeeds(env) || (Launches(env) && !env.removeOk), Succeeds(env) && HasOther(spec) && env.stopOk)
  {
    if env.secretsOk {
      AfterMore(w, Save(env, Fetch), From(spec, env, Fetch));
      FetchEnds(spec, env, Apply(w, Save(env, Fetch)));
    } else {
      FinishEnds(spec, env, w, ReportFail);
    }
  }

  /** Without a lease nothing is reported and nothing changes but the journal. */
  predicate Untouched(env: Env, w: World, end: World) {
    end.up == w.up && end.reported.None? && !end.settled && (env.forgetOk ==> end.journal.None?)
  }

  lemma UnleasedEnds(env: Env, w: World)
    requires w.reported.None? && !w.settled
    ensures Untouched(env, w, After(w, Unleased(env)))
  {
    AfterMore2(w, Posted(ReportStart, env.startReply), Forgot(env.forgetOk), []);
    assert Unleased(env) == [Posted(ReportStart, env.startReply), Forgot(env.forgetOk)] + [];
  }

  /** How every complete container run ends: a success is reported exactly if every step works; the
      new container serves after a success, or if it was started and its removal failed; the
      previous one is gone exactly if a success stopped it. */
  lemma ContainerRunEnds(spec: Spec, env: Env, w: World)
    requires Initial(spec, w) && spec.name !in w.up
    ensures var end := After(w, ContainerRun(spec, env));
            if env.specOk && env.startReply != Accepted then Untouched(env, w, end)
            else
              var ok := env.specOk && Succeeds(env);
              Ended(spec, env, end, if ok then ReportSucceed else ReportFail,
                    ok || (env.specOk && Launches(env) && !env.removeOk), ok && HasOther(spec) && env.stopOk)
  {
    if !env.specOk {
      FinishEnds(spec, env, w, ReportFail);
    } else if env.startReply != Accepted {
      UnleasedEnds(env, w);
    } else {
      AfterMore(w, Posted(ReportStart, env.startReply), Leased(spec, env));
      LeasedEnds(spec, env, Apply(w, Posted(ReportStart, env.startReply)));
    }
  }

  /** When removals work, the new container serves in the end exactly if a success was reported. */
  lemma NewServesIffSuccessReported(spec: Spec, env: Env, w: World)
    requires Initial(spec, w) && spec.name !in w.up && env.removeOk
    ensures var end := After(w, ContainerRun(spec, env));
            spec.name in end.up <==> end.reported == Some(ReportSucceed)
  {
    ContainerRunEnds(spec, env, w);
  }

  lemma KubeSwapEnds(spec: Spec, env: Env, w: World)
    requires !w.settled && Kept(spec, w) && spec.name in w.up
    ensures Ended(spec, env, After(w, KubeFrom(spec, env, StopPrev)), if env.drainOk then ReportSucceed else ReportFail,
                  true, env.drainOk && HasOther(spec) && env.stopOk)
  {
    if !env.drainOk {
      FinishEnds(spec, env, w, ReportFail);
    } else if HasOther(spec) {
      StopEnds(spec, env, w, Deleted(spec.prev.value, env.stopOk));
    } else {
      SucceedEnds(spec, env, w);
    }
  }

  lemma KubeHealthEnds(spec: Spec, env: Env, w: World)
    requires !w.settled && Kept(spec, w) && spec.name in w.up
    ensures Ended(spec, env, After(w, KubeFrom(spec, env, Health)), KubeAction(env),
                  env.healthOk || env.undoOk || !env.removeOk, env.healthOk && env.drainOk && HasOther(spec) && env.stopOk)
  {
    if env.healthOk {
      AfterMore2(w, HealthPassed, Save(env, StopPrev), KubeFrom(spec, env, StopPrev));
      KubeSwapEnds(spec, env, Apply(Apply(w, HealthPassed), Save(env, StopPrev)));
    } else if env.undoOk {
      AfterMore(w, Undone(spec.name, true), Finish(env, ReportRolledBack));
      FinishEnds(spec, env, w, ReportRolledBack);
    } else {
      var d := Deleted(spec.name, env.removeOk);
      AfterMore2(w, Undone(spec.name, false), d, Fail(env));
      FinishEnds(spec, env, Apply(w, d), ReportFail);
    }
  }

  /** The report once the deployment was applied. */
  function KubeAction(env: Env): Action {
    if env.healthOk && env.drainOk then ReportSucceed
    else if !env.healthOk && env.undoOk then ReportRolledBack
    else ReportFail
  }

  predicate KubeReady(env: Env) {
    env.specOk && env.secretsOk && env.fetchOk && env.buildOk
  }

  predicate KubeUp(env: Env) {
    if env.runOk then env.healthOk || env.undoOk || !env.removeOk else env.applyLeft && !env.removeOk
  }

  lemma KubeApplyEnds(spec: Spec, env: Env, w: World)
    requires !w.settled && Kept(spec, w) && spec.name !in w.up && env.buildOk
    ensures Ended(spec, env, After(w, KubeFrom(spec, env, Run)), if env.runOk then KubeAction(env) else ReportFail,
                  KubeUp(env), env.runOk && env.healthOk && env.drainOk && HasOther(spec) && env.stopOk)
  {
    if env.runOk {
      AfterMore2(w, Applied(spec.name, true), Save(env, Health), KubeFrom(spec, env, Health));
      KubeHealthEnds(spec, env, Apply(Apply(w, Applied(spec.name, true)), Save(env, Health)));
    } else {
      var a, d := Applied(spec.name, env.applyLeft), Deleted(spec.name, env.removeOk);
      AfterMore2(w, a, d, Fail(env));
      FinishEnds(spec, env, Apply(Apply(w, a), d), ReportFail);
    }
  }

  lemma KubeLeasedEnds(spec: Spec, env: Env, w: World)
    requires !w.settled && Kept(spec, w) && spec.name !in w.up && env.specOk
    ensures Ended(spec, env, After(w, KubeLeased(spec, env)),
                  if KubeReady(env) && env.runOk then KubeAction(env) else ReportFail,
                  KubeReady(env) && KubeUp(env),
                  KubeReady(env) && env.runOk && env.healthOk && env.drainOk && HasOther(spec) && env.stopOk)
  {
    FinishEnds(spec, env, w, ReportFail);
    var w1 := Apply(w, Save(env, Fetch));
    AfterMore(w, Save(env, Fetch), KubeFrom(spec, env, Fetch));
    FinishEnds(spec, env, w1, ReportFail);
    var w2 := Apply(w1, Save(env, Run));
    AfterMore(w1, Save(env, Run), KubeFrom(spec, env, Run));
    if env.buildOk { KubeApplyEnds(spec, env, w2); } else { FinishEnds(spec, env, w2, ReportFail); }
  }

  /** How every complete Kubernetes run ends. A rollback is reported exactly if the rollout failed
      and the undo worked. The new deployment is left up when its rollout passed, when the undo
      restored its previous revision, or when its deletion failed. */
  lemma KubeRunEnds(spec: Spec, fold: string -> string, env: Env, w: World)
    requires Initial(Folded(spec, fold), w) && Folded(spec, fold).name !in w.up
    ensures var named, end := Folded(spec, fold), After(w, KubeRun(spec, fold, env));
            if env.specOk && env.startReply != Accepted then Untouched(env, w, end)
            else
              Ended(named, env, end, if KubeReady(env) && env.runOk then KubeAction(env) else ReportFail,
                    KubeReady(env) && KubeUp(env),
                    KubeReady(env) && env.runOk && env.healthOk && env.drainOk && HasOther(named) && env.stopOk)
  {
    var named := Folded(spec, fold);
    if !env.specOk {
      FinishEnds(named, env, w, ReportFail);
    } else if env.startReply != Accepted {
      UnleasedEnds(env, w);
    } else {
      AfterMore(w, Posted(ReportStart, env.startReply), KubeLeased(named, env));
      KubeLeasedEnds(named, env, Apply(w, Posted(ReportStart, env.startReply)));
    }
  }

  // ----- every step is journaled before it runs -----

  /** What may happen while a step is the last one journaled (None: nothing journaled yet). */
  predicate Runs(step: Option<Step>, e: Effect) {
    match e
    case Saved(_, _) => true
    case Forgot(_) => true
    case Posted(action, _) =>
      if action == ReportStart then step.None? else step == Some(if action == ReportSucceed then Succeed else Failed)
    case Started(_, _) => step == Some(Run)
    case Applied(_, _) => step == Some(Run)
    case HealthPassed => step == Some(Health)
    case Undone(_, _) => step == Some(Health)
    case Stopped(_, _) => step == Some(StopPrev)
    case Removed(_, _) => step in [Some(Run), Some(Health), Some(StopPrev)]
    case Deleted(_, _) => step in [Some(Run), Some(Health), Some(StopPrev)]
  }

  /** Every effect belongs to the step last journaled before it. */
  predicate Announced(step: Option<Step>, trace: seq<Effect>)
    decreases |trace|
  {
    trace == [] || (Runs(step, trace[0]) && Announced(if trace[0].Saved? then Some(trace[0].step) else step, trace[1..]))
  }

  /** The steps journaled, in order. */
  function Journaled(trace: seq<Effect>): seq<Step> {
    if trace == [] then [] else (if trace[0].Saved? then [trace[0].step] else []) + Journaled(trace[1..])
  }

  predicate Goes(step: Option<Step>, trace: seq<Effect>, steps: seq<Step>) {
    Announced(step, trace) && Journaled(trace) == steps
  }

  lemma GoesOn(step: Option<Step>, e: Effect, rest: seq<Effect>, steps: seq<Step>)
    requires !e.Saved? && Runs(step, e) && Goes(step, rest, steps)
    ensures Goes(step, [e] + rest, steps)
  {
    assert ([e] + rest)[1..] == rest;
    assert [] + steps == steps;
  }

  lemma GoesTo(step: Option<Step>, env: Env, next: Step, rest: seq<Effect>, steps: seq<Step>)
    requires Goes(Some(next), rest, steps)
    ensures Goes(step, [Save(env, next)] + rest, [next] + steps)
  {
    assert ([Save(env, next)] + rest)[1..] == rest;
  }

  lemma ReportGoes(env: Env, action: Action)
    requires action != ReportStart
    ensures Goes(Some(LastStep(action)), Report(env, action), [])
  {
    var last := Some(LastStep(action));
    var forgot := if env.endReply == Accepted then [Forgot(env.forgetOk)] else [];
    if env.endReply == Accepted {
      GoesOn(last, Forgot(env.forgetOk), [], []);
      assert [Forgot(env.forgetOk)] + [] == [Forgot(env.forgetOk)];
    }
    GoesOn(last, Posted(action, env.endReply), forgot, []);
  }

  lemma FinishGoes(step: Option<Step>, env: Env, action: Action)
    requires action == ReportFail || action == ReportRolledBack
    ensures Goes(step, Finish(env, action), [Failed])
  {
    ReportGoes(env, action);
    GoesTo(step, env, Failed, Report(env, action), []);
  }

  lemma SucceedGoes(env: Env)
    ensures Goes(Some(StopPrev), [Save(env, Succeed)] + Report(env, ReportSucceed), [Succeed])
  {
    ReportGoes(env, ReportSucceed);
    GoesTo(Some(StopPrev), env, Succeed, Report(env, ReportSucceed), []);
  }

  lemma StopGoes(env: Env, stop: Effect)
    requires stop.Stopped? || stop.Deleted?
    ensures Goes(Some(StopPrev), [stop, Save(env, Succeed)] + Report(env, ReportSucceed), [Succeed])
  {
    var rest := [Save(env, Succeed)] + Report(env, ReportSucceed);
    assert [stop, Save(env, Succeed)] + Report(env, ReportSucceed) == [stop] + rest;
    SucceedGoes(env);
    GoesOn(Some(StopPrev), stop, rest, [Succeed]);
  }

  lemma FailStartedGoes(spec: Spec, env: Env, step: Option<Step>)
    requires step == Some(Health) || step == Some(StopPrev)
    ensures Goes(step, FailStarted(spec, env), [Failed])
  {
    FinishGoes(step, env, ReportFail);
    GoesOn(step, Removed(spec.name, env.removeOk), Fail(env), [Failed]);
  }

  function HealthSteps(env: Env): seq<Step> {
    if !env.healthOk then [Failed] else if !env.drainOk then [StopPrev, Failed] else [StopPrev, Succeed]
  }

  lemma HealthGoes(spec: Spec, env: Env)
    ensures Goes(Some(Health), From(spec, env, Health), HealthSteps(env))
  {
    FailStartedGoes(spec, env, Some(Health));
    if env.healthOk {
      FailStartedGoes(spec, env, Some(StopPrev));
      SucceedGoes(env);
      if HasOther(spec) { StopGoes(env, Stopped(spec.prev.value, env.stopOk)); }
      PassedGoes(env, From(spec, env, StopPrev), if env.drainOk then [Succeed] else [Failed]);
    }
  }

  lemma PassedGoes(env: Env, rest: seq<Effect>, steps: seq<Step>)
    requires Goes(Some(StopPrev), rest, steps)
    ensures Goes(Some(Health), [HealthPassed, Save(env, StopPrev)] + rest, [StopPrev] + steps)
  {
    GoesTo(Some(Health), env, StopPrev, rest, steps);
    GoesOn(Some(Health), HealthPassed, [Save(env, StopPrev)] + rest, [StopPrev] + steps);
    assert [HealthPassed, Save(env, StopPrev)] + rest == [HealthPassed] + ([Save(env, StopPrev)] + rest);
  }

  lemma RunGoes(spec: Spec, env: Env)
    ensures Goes(Some(Run), From(spec, env, Run), if env.envFileOk && env.runOk then [Health] + HealthSteps(env) else [Failed])
  {
    FinishGoes(Some(Run), env, ReportFail);
    if env.envFileOk {
      HealthGoes(spec, env);
      GoesTo(Some(Run), env, Health, From(spec, env, Health), HealthSteps(env));
      var rest := if env.runOk then [Save(env, Health)] + From(spec, env, Health) else Fail(env);
      var steps := if env.runOk then [Health] + HealthSteps(env) else [Failed];
      var r, start := Removed(spec.name, env.clearOk), Started(spec.name, env.runOk);
      GoesOn(Some(Run), start, rest, steps);
      GoesOn(Some(Run), r, [start] + rest, steps);
      assert From(spec, env, Run) == [r] + ([start] + rest);
    }
  }

  lemma BuildGoes(spec: Spec, env: Env)
    ensures Goes(Some(Build), From(spec, env, Build), if env.buildOk then [Run] + Journaled(From(spec, env, Run)) else [Failed])
  {
    FinishGoes(Some(Build), env, ReportFail);
    RunGoes(spec, env);
    GoesTo(Some(Build), env, Run, From(spec, env, Run), Journaled(From(spec, env, Run)));
  }

  lemma FetchGoes(spec: Spec, env: Env)
    ensures Goes(Some(Fetch), From(spec, env, Fetch), if env.fetchOk then [Build] + Journaled(From(spec, env, Build)) else [Failed])
  {
    FinishGoes(Some(Fetch), env, ReportFail);
    BuildGoes(spec, env);
    GoesTo(Some(Fetch), env, Build, From(spec, env, Build), Journaled(From(spec, env, Build)));
  }

  /** How many steps a container run reaches. */
  function Reached(env: Env): nat {
    if !env.secretsOk then 0 else if !env.fetchOk then 1 else if !env.buildOk then 2
    else if !(env.envFileOk && env.runOk) then 3 else if !env.healthOk then 4 else if !env.drainOk then 5 else 6
  }

  lemma LeasedGoes(spec: Spec, env: Env)
    ensures Goes(None, Leased(spec, env),
                 [Fetch, Build, Run, Health, StopPrev, Succeed][..Reached(env)] + if Reached(env) == 6 then [] else [Failed])
  {
    FinishGoes(None, env, ReportFail);
    RunGoes(spec, env);
    BuildGoes(spec, env);
    FetchGoes(spec, env);
    GoesTo(None, env, Fetch, From(spec, env, Fetch), Journaled(From(spec, env, Fetch)));
  }

  lemma ClaimedGoes(env: Env, leased: seq<Effect>, steps: seq<Step>)
    requires Goes(None, leased, steps)
    ensures Goes(None, Claimed(env, leased), if !env.specOk then [Failed] else if env.startReply != Accepted then [] else steps)
  {
    FinishGoes(None, env, ReportFail);
    var p, g := Posted(ReportStart, env.startReply), Forgot(env.forgetOk);
    GoesOn(None, p, leased, steps);
    GoesOn(None, g, [], []);
    GoesOn(None, p, [g] + [], []);
    assert Unleased(env) == [p] + ([g] + []);
  }

  /** Every step of a container run is journaled before anything of it happens, so at a crash the
      last entry written names the step that may have run in part; and the steps journaled are the
      six in order up to the first that fails, with the failure last. */
  lemma StepsJournaledFirst(spec: Spec, env: Env)
    ensures Announced(None, ContainerRun(spec, env))
    ensures Journaled(ContainerRun(spec, env))
         == if !env.specOk then [Failed]
            else if env.startReply != Accepted then []
            else [Fetch, Build, Run, Health, StopPrev, Succeed][..Reached(env)] + if Reached(env) == 6 then [] else [Failed]
  {
    LeasedGoes(spec, env);
    ClaimedGoes(env, Leased(spec, env), Journaled(Leased(spec, env)));
  }

  lemma KubeHealthGoes(spec: Spec, env: Env)
    ensures Goes(Some(Health), KubeFrom(spec, env, Health), HealthSteps(env))
  {
    if env.healthOk {
      FinishGoes(Some(StopPrev), env, ReportFail);
      SucceedGoes(env);
      if HasOther(spec) { StopGoes(env, Deleted(spec.prev.value, env.stopOk)); }
      PassedGoes(env, KubeFrom(spec, env, StopPrev), if env.drainOk then [Succeed] else [Failed]);
    } else if env.undoOk {
      FinishGoes(Some(Health), env, ReportRolledBack);
      GoesOn(Some(Health), Undone(spec.name, true), Finish(env, ReportRolledBack), [Failed]);
    } else {
      FinishGoes(Some(Health), env, ReportFail);
      var d := Deleted(spec.name, env.removeOk);
      GoesOn(Some(Health), d, Fail(env), [Failed]);
      GoesOn(Some(Health), Undone(spec.name, false), [d] + Fail(env), [Failed]);
      assert KubeFrom(spec, env, Health) == [Undone(spec.name, false)] + ([d] + Fail(env));
    }
  }

  lemma KubeRunGoes(spec: Spec, env: Env)
    ensures Goes(Some(Run), KubeFrom(spec, env, Run), if env.buildOk && env.runOk then [Health] + HealthSteps(env) else [Failed])
  {
    FinishGoes(Some(Run), env, ReportFail);
    if env.buildOk {
      if env.runOk {
        KubeHealthGoes(spec, env);
        GoesTo(Some(Run), env, Health, KubeFrom(spec, env, Health), HealthSteps(env));
        var rest := [Save(env, Health)] + KubeFrom(spec, env, Health);
        GoesOn(Some(Run), Applied(spec.name, true), rest, [Health] + HealthSteps(env));
        assert KubeFrom(spec, env, Run) == [Applied(spec.name, true)] + rest;
      } else {
        var a, d := Applied(spec.name, env.applyLeft), Deleted(spec.name, env.removeOk);
        GoesOn(Some(Run), d, Fail(env), [Failed]);
        GoesOn(Some(Run), a, [d] + Fail(env), [Failed]);
        assert KubeFrom(spec, env, Run) == [a] + ([d] + Fail(env));
      }
    }
  }

  function KubeReached(env: Env): nat {
    if !env.secretsOk then 0 else if !env.fetchOk then 1 else if !(env.buildOk && env.runOk) then 2
    else if !env.healthOk then 3 else if !env.drainOk then 4 else 5
  }

  lemma KubeLeasedGoes(spec: Spec, env: Env)
    ensures Goes(None, KubeLeased(spec, env),
                 [Fetch, Run, Health, StopPrev, Succeed][..KubeReached(env)] + if KubeReached(env) == 5 then [] else [Failed])
  {
    FinishGoes(None, env, ReportFail);
    FinishGoes(Some(Fetch), env, ReportFail);
    KubeRunGoes(spec, env);
    GoesTo(Some(Fetch), env, Run, KubeFrom(spec, env, Run), Journaled(KubeFrom(spec, env, Run)));
    GoesTo(None, env, Fetch, KubeFrom(spec, env, Fetch), Journaled(KubeFrom(spec, env, Fetch)));
  }

  /** The same on Kubernetes, which journals no build step. */
  lemma KubeStepsJournaledFirst(spec: Spec, fold: string -> string, env: Env)
    ensures Announced(None, KubeRun(spec, fold, env))
    ensures Journaled(KubeRun(spec, fold, env))
         == if !env.specOk then [Failed]
            else if env.startReply != Accepted then []
            else [Fetch, Run, Health, StopPrev, Succeed][..KubeReached(env)] + if KubeReached(env) == 5 then [] else [Failed]
  {
    var named := Folded(spec, fold);
    KubeLeasedGoes(named, env);
    ClaimedGoes(env, KubeLeased(named, env), Journaled(KubeLeased(named, env)));
  }

  // ----- a failure is journaled and reported only once the new container is gone -----

  /** No journal entry or report of a failure while the new container serves. */
  predicate Cleaned(spec: Spec, w: World) {
    w.reported == Some(ReportFail) || (w.own && w.journal == Some(Failed)) ==> spec.name !in w.up
  }

  /** On Kubernetes the new deployment stays when its rollout passed or was undone. */
  predicate KubeCleaned(spec: Spec, w: World) {
    w.reported == Some(ReportFail) && !w.healthy ==> spec.name !in w.up
  }

  function Clean(spec: Spec): World -> bool {
    w => Cleaned(spec, w)
  }

  function KubeClean(spec: Spec): World -> bool {
    w => KubeCleaned(spec, w)
  }

  /** No failure is on record yet. */
  predicate Pending(w: World) {
    w.reported.None? && !(w.own && w.journal == Some(Failed))
  }

  predicate StartsNothing(trace: seq<Effect>) {
    forall i :: 0 <= i < |trace| ==> !trace[i].Started? && !trace[i].Applied?
  }

  lemma {:induction false} DownStaysClean(spec: Spec, w: World, trace: seq<Effect>)
    requires spec.name !in w.up && StartsNothing(trace)
    ensures Always(Clean(spec), w, trace) && Always(KubeClean(spec), w, trace)
    decreases |trace|
  {
    if trace != [] {
      assert !trace[0].Started? && !trace[0].Applied?;
      DownStaysClean(spec, Apply(w, trace[0]), trace[1..]);
    }
  }

  lemma FailStartedClean(spec: Spec, env: Env, w: World)
    requires Pending(w) && env.removeOk
    ensures Always(Clean(spec), w, FailStarted(spec, env))
  {
    var r := Removed(spec.name, env.removeOk);
    AlwaysMore(Clean(spec), w, r, Fail(env));
    DownStaysClean(spec, Apply(w, r), Fail(env));
  }

  lemma SucceedClean(spec: Spec, env: Env, w: World)
    requires Pending(w)
    ensures Always(Clean(spec), w, [Save(env, Succeed)] + Report(env, ReportSucceed))
    ensures Always(KubeClean(spec), w, [Save(env, Succeed)] + Report(env, ReportSucceed))
  {
    var w1, p, g := Apply(w, Save(env, Succeed)), Posted(ReportSucceed, env.endReply), Forgot(env.forgetOk);
    var tail := if env.endReply == Accepted then [g] else [];
    AlwaysMore(Clean(spec), w, Save(env, Succeed), Report(env, ReportSucceed));
    AlwaysMore(KubeClean(spec), w, Save(env, Succeed), Report(env, ReportSucceed));
    AlwaysMore(Clean(spec), w1, p, tail);
    AlwaysMore(KubeClean(spec), w1, p, tail);
    AlwaysMore(Clean(spec), Apply(w1, p), g, []);
    AlwaysMore(KubeClean(spec), Apply(w1, p), g, []);
    assert [g] + [] == [g];
  }

  lemma SwapClean(spec: Spec, env: Env, w: World)
    requires Pending(w) && env.removeOk
    ensures Always(Clean(spec), w, From(spec, env, StopPrev))
  {
    if !env.drainOk {
      FailStartedClean(spec, env, w);
    } else if HasOther(spec) {
      var stop := Stopped(spec.prev.value, env.stopOk);
      var rest := [Save(env, Succeed)] + Report(env, ReportSucceed);
      assert [stop, Save(env, Succeed)] + Report(env, ReportSucceed) == [stop] + rest;
      AlwaysMore(Clean(spec), w, stop, rest);
      SucceedClean(spec, env, Apply(w, stop));
    } else {
      SucceedClean(spec, env, w);
    }
  }

  lemma HealthClean(spec: Spec, env: Env, w: World)
    requires Pending(w) && env.removeOk
    ensures Always(Clean(spec), w, From(spec, env, Health))
  {
    if !env.healthOk {
      FailStartedClean(spec, env, w);
    } else {
      AlwaysMore2(Clean(spec), w, HealthPassed, Save(env, StopPrev), From(spec, env, StopPrev));
      SwapClean(spec, env, Apply(Apply(w, HealthPassed), Save(env, StopPrev)));
    }
  }

  lemma RunClean(spec: Spec, env: Env, w: World)
    requires Pending(w) && env.removeOk && spec.name !in w.up
    ensures Always(Clean(spec), w, From(spec, env, Run))
  {
    var r := Removed(spec.name, env.clearOk);
    if !env.envFileOk {
      DownStaysClean(spec, w, Fail(env));
    } else if !env.runOk {
      AlwaysMore2(Clean(spec), w, r, Started(spec.name, false), Fail(env));
      DownStaysClean(spec, Apply(Apply(w, r), Started(spec.name, false)), Fail(env));
    } else {
      AlwaysMore3(Clean(spec), w, r, Started(spec.name, true), Save(env, Health), From(spec, env, Health));
      HealthClean(spec, env, Apply(Apply(Apply(w, r), Started(spec.name, true)), Save(env, Health)));
    }
  }

  lemma BuildClean(spec: Spec, env: Env, w: World)
    requires Pending(w) && env.removeOk && spec.name !in w.up
    ensures Always(Clean(spec), w, From(spec, env, Build))
  {
    DownStaysClean(spec, w, Fail(env));
    AlwaysMore(Clean(spec), w, Save(env, Run), From(spec, env, Run));
    RunClean(spec, env, Apply(w, Save(env, Run)));
  }

  lemma FetchClean(spec: Spec, env: Env, w: World)
    requires Pending(w) && env.removeOk && spec.name !in w.up
    ensures Always(Clean(spec), w, From(spec, env, Fetch))
  {
    DownStaysClean(spec, w, Fail(env));
    AlwaysMore(Clean(spec), w, Save(env, Build), From(spec, env, Build));
    BuildClean(spec, env, Apply(w, Save(env, Build)));
  }

  lemma EarlyClean(spec: Spec, env: Env, w: World)
    requires Pending(w) && env.removeOk && spec.name !in w.up
    ensures Always(Clean(spec), w, Leased(spec, env))
  {
    DownStaysClean(spec, w, Fail(env));
    AlwaysMore(Clean(spec), w, Save(env, Fetch), From(spec, env, Fetch));
    FetchClean(spec, env, Apply(w, Save(env, Fetch)));
  }

  /** When removals work, at no crash point is a failure on record while the new container serves. */
  lemma FailureFoundClean(spec: Spec, env: Env, w: World, k: nat)
    requires Initial(spec, w) && spec.name !in w.up && env.removeOk && k <= |ContainerRun(spec, env)|
    ensures Cleaned(spec, After(w, ContainerRun(spec, env)[..k]))
  {
    DownStaysClean(spec, w, Fail(env));
    DownStaysClean(spec, w, Unleased(env));
    AlwaysMore(Clean(spec), w, Posted(ReportStart, env.startReply), Leased(spec, env));
    EarlyClean(spec, env, Apply(w, Posted(ReportStart, env.startReply)));
    AlwaysPrefixes(Clean(spec), w, ContainerRun(spec, env), k);
  }

  lemma KubeSwapClean(spec: Spec, env: Env, w: World)
    requires Pending(w) && w.healthy
    ensures Always(KubeClean(spec), w, KubeFrom(spec, env, StopPrev))
  {
    if !env.drainOk {
      HealthyStaysClean(spec, w, Fail(env));
    } else if HasOther(spec) {
      HealthyStaysClean(spec, w, [Deleted(spec.prev.value, env.stopOk), Save(env, Succeed)] + Report(env, ReportSucceed));
    } else {
      HealthyStaysClean(spec, w, [Save(env, Succeed)] + Report(env, ReportSucceed));
    }
  }

  lemma {:induction false} HealthyStaysClean(spec: Spec, w: World, trace: seq<Effect>)
    requires w.healthy
    ensures Always(KubeClean(spec), w, trace)
    decreases |trace|
  {
    if trace != [] { HealthyStaysClean(spec, Apply(w, trace[0]), trace[1..]); }
  }

  lemma RolledBackClean(spec: Spec, env: Env, w: World)
    requires w.reported.None?
    ensures Always(KubeClean(spec), w, Finish(env, ReportRolledBack))
  {
    var w1, p, g := Apply(w, Save(env, Failed)), Posted(ReportRolledBack, env.endReply), Forgot(env.forgetOk);
    AlwaysMore(KubeClean(spec), w, Save(env, Failed), Report(env, ReportRolledBack));
    AlwaysMore(KubeClean(spec), w1, p, if env.endReply == Accepted then [g] else []);
    AlwaysMore(KubeClean(spec), Apply(w1, p), g, []);
    assert [g] + [] == [g];
  }

  lemma KubeHealthClean(spec: Spec, env: Env, w: World)
    requires Pending(w) && env.removeOk
    ensures Always(KubeClean(spec), w, KubeFrom(spec, env, Health))
  {
    var d := Deleted(spec.name, env.removeOk);
    if env.healthOk {
      AlwaysMore2(KubeClean(spec), w, HealthPassed, Save(env, StopPrev), KubeFrom(spec, env, StopPrev));
      KubeSwapClean(spec, env, Apply(Apply(w, HealthPassed), Save(env, StopPrev)));
    } else if env.undoOk {
      AlwaysMore(KubeClean(spec), w, Undone(spec.name, true), Finish(env, ReportRolledBack));
      RolledBackClean(spec, env, Apply(w, Undone(spec.name, true)));
    } else {
      AlwaysMore2(KubeClean(spec), w, Undone(spec.name, false), d, Fail(env));
      DownStaysClean(spec, Apply(Apply(w, Undone(spec.name, false)), d), Fail(env));
    }
  }

  lemma KubeApplyClean(spec: Spec, env: Env, w: World)
    requires Pending(w) && env.removeOk && spec.name !in w.up
    ensures Always(KubeClean(spec), w, KubeFrom(spec, env, Run))
  {
    var a, d := Applied(spec.name, env.applyLeft), Deleted(spec.name, env.removeOk);
    if !env.buildOk {
      DownStaysClean(spec, w, Fail(env));
    } else if !env.runOk {
      AlwaysMore2(KubeClean(spec), w, a, d, Fail(env));
      DownStaysClean(spec, Apply(Apply(w, a), d), Fail(env));
    } else {
      AlwaysMore2(KubeClean(spec), w, Applied(spec.name, true), Save(env, Health), KubeFrom(spec, env, Health));
      KubeHealthClean(spec, env, Apply(Apply(w, Applied(spec.name, true)), Save(env, Health)));
    }
  }

  /** When deletions work, at no crash point is a failure reported while the new deployment serves
      without having passed its rollout. */
  lemma KubeFailureFoundClean(spec: Spec, fold: string -> string, env: Env, w: World, k: nat)
    requires Initial(Folded(spec, fold), w) && Folded(spec, fold).name !in w.up && env.removeOk && k <= |KubeRun(spec, fold, env)|
    ensures KubeCleaned(Folded(spec, fold), After(w, KubeRun(spec, fold, env)[..k]))
  {
    var named := Folded(spec, fold);
    var good, p := KubeClean(named), Posted(ReportStart, env.startReply);
    DownStaysClean(named, w, Fail(env));
    DownStaysClean(named, w, Unleased(env));
    AlwaysMore(good, w, p, KubeLeased(named, env));
    var w0 := Apply(w, p);
    DownStaysClean(named, w0, Fail(env));
    AlwaysMore(good, w0, Save(env, Fetch), KubeFrom(named, env, Fetch));
    var w1 := Apply(w0, Save(env, Fetch));
    DownStaysClean(named, w1, Fail(env));
    AlwaysMore(good, w1, Save(env, Run), KubeFrom(named, env, Run));
    KubeApplyClean(named, env, Apply(w1, Save(env, Run)));
    AlwaysPrefixes(good, w, KubeRun(spec, fold, env), k);
  }

  // ----- what a failed journal write can cost -----

  lemma {:induction false} PrefixesAlways(good: World -> bool, w: World, trace: seq<Effect>)
    requires forall k :: 0 <= k <= |trace| ==> good(After(w, trace[..k]))
    ensures Always(good, w, trace)
    decreases |trace|
  {
    assert good(After(w, trace[..0]));
    if trace != [] {
      forall k | 0 <= k <= |trace[1..]| ensures good(After(Apply(w, trace[0]), trace[1..][..k])) {
        assert good(After(w, trace[..k + 1]));
        assert trace[..k + 1][1..] == trace[1..][..k];
      }
      PrefixesAlways(good, Apply(w, trace[0]), trace[1..]);
    }
  }

  function Truthful(spec: Spec): World -> bool {
    w => !Misreported(spec, w)
  }

  /** No effect in the list takes the previous container down. */
  predicate Spares(spec: Spec, trace: seq<Effect>) {
    forall i :: 0 <= i < |trace| ==> SparedBy(spec, trace[i])
  }

  predicate SparedBy(spec: Spec, e: Effect) {
    match e
    case Removed(name, _) => Some(name) != spec.prev
    case Stopped(name, _) => Some(name) != spec.prev
    case Deleted(name, _) => Some(name) != spec.prev
    case _ => true
  }

  lemma {:induction false} SparedTruthful(spec: Spec, w: World, trace: seq<Effect>)
    requires Kept(spec, w) && (HasOther(spec) ==> Spares(spec, trace))
    ensures Always(Truthful(spec), w, trace)
    decreases |trace|
  {
    if trace != [] {
      assert HasOther(spec) ==> SparedBy(spec, trace[0]);
      SparedTruthful(spec, Apply(w, trace[0]), trace[1..]);
    }
  }

  lemma FailuresTruthful(spec: Spec, env: Env, w: World)
    requires Kept(spec, w)
    ensures Always(Truthful(spec), w, Fail(env)) && Always(Truthful(spec), w, FailStarted(spec, env))
  {
    SparedTruthful(spec, w, Fail(env));
    SparedTruthful(spec, w, FailStarted(spec, env));
  }

  /** Every command from `step` on succeeds, up to the stop. */
  predicate Reaches(env: Env, step: Step)
    decreases StepsLeft(step)
  {
    match step
    case Fetch => env.fetchOk && Reaches(env, Build)
    case Build => env.buildOk && Reaches(env, Run)
    case Run => env.envFileOk && env.runOk && Reaches(env, Health)
    case Health => env.healthOk && Reaches(env, StopPrev)
    case _ => env.drainOk && env.stopOk
  }

  function Written(env: Env, j: Option<Step>, step: Step): Option<Step> {
    if env.saveOk(step) then Some(step) else j
  }

  /** The entry at the stop, given the entry at `step`. */
  function EntryAtStop(env: Env, step: Step, j: Option<Step>): Option<Step>
    decreases StepsLeft(step)
  {
    match step
    case Fetch => EntryAtStop(env, Build, Written(env, j, Build))
    case Build => EntryAtStop(env, Run, Written(env, j, Run))
    case Run => EntryAtStop(env, Health, Written(env, j, Health))
    case Health => EntryAtStop(env, StopPrev, Written(env, j, StopPrev))
    case _ => j
  }

  lemma {:induction false} LastStepsTruthful(spec: Spec, env: Env, w: World)
    requires !SaysBroken(w.journal) || Kept(spec, w)
    ensures Always(Truthful(spec), w, [Save(env, Succeed)] + Report(env, ReportSucceed))
  {
    var post := Report(env, ReportSucceed);
    AlwaysMore(Truthful(spec), w, Save(env, Succeed), post);
    var w' := Apply(w, Save(env, Succeed));
    AlwaysMore(Truthful(spec), w', post[0], post[1..]);
    assert post == [post[0]] + post[1..];
    if post[1..] != [] {
      AlwaysMore(Truthful(spec), Apply(w', post[0]), Forgot(env.forgetOk), []);
      assert post[1..] == [Forgot(env.forgetOk)] + [];
    }
  }

  lemma StopEffectTruthful(spec: Spec, env: Env, w: World, stop: Effect)
    requires Kept(spec, w) && HasOther(spec)
    requires stop == Stopped(spec.prev.value, env.stopOk) || stop == Deleted(spec.prev.value, env.stopOk)
    ensures Always(Truthful(spec), w, [stop, Save(env, Succeed)] + Report(env, ReportSucceed))
       <==> !(env.stopOk && SaysBroken(w.journal))
  {
    var rest := [Save(env, Succeed)] + Report(env, ReportSucceed);
    assert [stop, Save(env, Succeed)] + Report(env, ReportSucceed) == [stop] + rest;
    AlwaysMore(Truthful(spec), w, stop, rest);
    if !SaysBroken(w.journal) || !env.stopOk { LastStepsTruthful(spec, env, Apply(w, stop)); }
  }

  lemma StopTruthful(spec: Spec, env: Env, w: World)
    requires Kept(spec, w)
    ensures Always(Truthful(spec), w, From(spec, env, StopPrev))
       <==> !(HasOther(spec) && env.drainOk && env.stopOk && SaysBroken(w.journal))
  {
    if !env.drainOk {
      FailuresTruthful(spec, env, w);
    } else if HasOther(spec) {
      StopEffectTruthful(spec, env, w, Stopped(spec.prev.value, env.stopOk));
    } else {
      LastStepsTruthful(spec, env, w);
    }
  }

  /** From a step on, a crash may be misreported exactly if the run reaches the stop with an
      entry that says failure. */
  ghost predicate TruthfulFrom(spec: Spec, env: Env, w: World, step: Step) {
    Always(Truthful(spec), w, From(spec, env, step))
    <==> !(HasOther(spec) && Reaches(env, step) && SaysBroken(EntryAtStop(env, step, w.journal)))
  }

  lemma HealthTruthful(spec: Spec, env: Env, w: World)
    requires Kept(spec, w)
    ensures TruthfulFrom(spec, env, w, Health)
  {
    FailuresTruthful(spec, env, w);
    AlwaysMore2(Truthful(spec), w, HealthPassed, Save(env, StopPrev), From(spec, env, StopPrev));
    StopTruthful(spec, env, Apply(Apply(w, HealthPassed), Save(env, StopPrev)));
  }

  lemma RunTruthful(spec: Spec, env: Env, w: World)
    requires Kept(spec, w)
    ensures TruthfulFrom(spec, env, w, Run)
  {
    if !env.envFileOk {
      FailuresTruthful(spec, env, w);
    } else if !env.runOk {
      SparedTruthful(spec, w, [Removed(spec.name, env.clearOk), Started(spec.name, false)] + Fail(env));
    } else {
      var w1 := Apply(w, Removed(spec.name, env.clearOk));
      var w2 := Apply(w1, Started(spec.name, true));
      AlwaysMore3(Truthful(spec), w, Removed(spec.name, env.clearOk), Started(spec.name, true), Save(env, Health),
                  From(spec, env, Health));
      HealthTruthful(spec, env, Apply(w2, Save(env, Health)));
    }
  }

  lemma BuildTruthful(spec: Spec, env: Env, w: World)
    requires Kept(spec, w)
    ensures TruthfulFrom(spec, env, w, Build)
  {
    FailuresTruthful(spec, env, w);
    AlwaysMore(Truthful(spec), w, Save(env, Run), From(spec, env, Run));
    RunTruthful(spec, env, Apply(w, Save(env, Run)));
  }

  lemma FetchTruthful(spec: Spec, env: Env, w: World)
    requires Kept(spec, w)
    ensures TruthfulFrom(spec, env, w, Fetch)
  {
    FailuresTruthful(spec, env, w);
    AlwaysMore(Truthful(spec), w, Save(env, Build), From(spec, env, Build));
    BuildTruthful(spec, env, Apply(w, Save(env, Build)));
  }

  /** The run that stops the previous container without a journal entry for it: every command
      succeeds, the journal holds an earlier entry (`left` by an earlier attempt or written), but
      not the one before the stop. */
  predicate LosesTheStop(spec: Spec, env: Env, left: Option<Step>) {
    && HasOther(spec)
    && env.specOk && env.startReply == Accepted && env.secretsOk && env.fetchOk && env.buildOk
    && env.envFileOk && env.runOk && env.healthOk && env.drainOk && env.stopOk
    && !env.saveOk(StopPrev)
    && (SaysBroken(left) || env.saveOk(Fetch) || env.saveOk(Build) || env.saveOk(Run) || env.saveOk(Health))
  }

  lemma StopEntry(env: Env, left: Option<Step>)
    ensures SaysBroken(EntryAtStop(env, Fetch, Written(env, left, Fetch)))
       <==> (!env.saveOk(StopPrev)
             && (SaysBroken(left) || env.saveOk(Fetch) || env.saveOk(Build) || env.saveOk(Run) || env.saveOk(Health)))
    ensures Reaches(env, Fetch)
       <==> (env.fetchOk && env.buildOk && env.envFileOk && env.runOk && env.healthOk && env.drainOk && env.stopOk)
  {
    assert Reaches(env, Build) == (env.buildOk && Reaches(env, Run));
    assert Reaches(env, Run) == (env.envFileOk && env.runOk && Reaches(env, Health));
    var b := Written(env, Written(env, left, Fetch), Build);
    assert EntryAtStop(env, Build, b) == EntryAtStop(env, Run, Written(env, b, Run));
    assert EntryAtStop(env, Run, Written(env, b, Run)) == EntryAtStop(env, Health, Written(env, Written(env, b, Run), Health));
  }

  lemma LeasedTruthful(spec: Spec, env: Env, w: World)
    requires Kept(spec, w)
    ensures Always(Truthful(spec), w, Leased(spec, env))
       <==> !(HasOther(spec) && env.secretsOk && Reaches(env, Fetch)
              && SaysBroken(EntryAtStop(env, Fetch, Written(env, w.journal, Fetch))))
  {
    FailuresTruthful(spec, env, w);
    AlwaysMore(Truthful(spec), w, Save(env, Fetch), From(spec, env, Fetch));
    FetchTruthful(spec, env, Apply(w, Save(env, Fetch)));
  }

  lemma ClaimedTruthful(spec: Spec, env: Env, w: World, leased: seq<Effect>)
    requires Initial(spec, w)
    ensures Always(Truthful(spec), w, Claimed(env, leased))
       <==> (env.specOk && env.startReply == Accepted ==> Always(Truthful(spec), w, leased))
  {
    FailuresTruthful(spec, env, w);
    SparedTruthful(spec, w, Unleased(env));
    AlwaysMore(Truthful(spec), w, Posted(ReportStart, env.startReply), leased);
  }

  /** A condition fails at some crash point exactly when it does not hold always. */
  lemma FailsSomewhere(good: World -> bool, w: World, run: seq<Effect>)
    ensures (exists k :: 0 <= k <= |run| && !good(After(w, run[..k]))) <==> !Always(good, w, run)
  {
    if Always(good, w, run) {
      forall k | 0 <= k <= |run| ensures good(After(w, run[..k])) {
        AlwaysPrefixes(good, w, run, k);
      }
    } else if forall k :: 0 <= k <= |run| ==> good(After(w, run[..k])) {
      PrefixesAlways(good, w, run);
      assert false;
    }
  }

  /** Exactly when some crash point reconciles to failure although the previous container is gone. */
  lemma MisreportedIffStopUnwritten(spec: Spec, env: Env, w: World)
    requires Initial(spec, w)
    ensures (exists k :: 0 <= k <= |ContainerRun(spec, env)| && Misreported(spec, After(w, ContainerRun(spec, env)[..k])))
       <==> LosesTheStop(spec, env, w.journal)
  {
    var run := ContainerRun(spec, env);
    LeasedTruthful(spec, env, w);
    ClaimedTruthful(spec, env, w, Leased(spec, env));
    StopEntry(env, w.journal);
    FailsSomewhere(Truthful(spec), w, run);
    forall k | 0 <= k <= |run|
      ensures Misreported(spec, After(w, run[..k])) <==> !Truthful(spec)(After(w, run[..k])) {}
  }

  predicate KubeReaches(env: Env, step: Step)
    decreases StepsLeft(step)
  {
    match step
    case Fetch => env.fetchOk && KubeReaches(env, Run)
    case Run => env.buildOk && env.runOk && KubeReaches(env, Health)
    case Health => env.healthOk && KubeReaches(env, StopPrev)
    case _ => env.drainOk && env.stopOk
  }

  function KubeEntryAtStop(env: Env, step: Step, j: Option<Step>): Option<Step>
    decreases StepsLeft(step)
  {
    match step
    case Fetch => KubeEntryAtStop(env, Run, Written(env, j, Run))
    case Run => KubeEntryAtStop(env, Health, Written(env, j, Health))
    case Health => KubeEntryAtStop(env, StopPrev, Written(env, j, StopPrev))
    case _ => j
  }

  ghost predicate KubeTruthfulFrom(spec: Spec, env: Env, w: World, step: Step) {
    Always(Truthful(spec), w, KubeFrom(spec, env, step))
    <==> !(HasOther(spec) && KubeReaches(env, step) && SaysBroken(KubeEntryAtStop(env, step, w.journal)))
  }

  lemma KubeStopTruthful(spec: Spec, env: Env, w: World)
    requires Kept(spec, w)
    ensures Always(Truthful(spec), w, KubeFrom(spec, env, StopPrev))
       <==> !(HasOther(spec) && env.drainOk && env.stopOk && SaysBroken(w.journal))
  {
    if !env.drainOk {
      FailuresTruthful(spec, env, w);
    } else if HasOther(spec) {
      StopEffectTruthful(spec, env, w, Deleted(spec.prev.value, env.stopOk));
    } else {
      LastStepsTruthful(spec, env, w);
    }
  }

  lemma KubeHealthTruthful(spec: Spec, env: Env, w: World)
    requires Kept(spec, w)
    ensures KubeTruthfulFrom(spec, env, w, Health)
  {
    if env.healthOk {
      AlwaysMore2(Truthful(spec), w, HealthPassed, Save(env, StopPrev), KubeFrom(spec, env, StopPrev));
      KubeStopTruthful(spec, env, Apply(Apply(w, HealthPassed), Save(env, StopPrev)));
    } else {
      SparedTruthful(spec, w, [Undone(spec.name, true)] + Finish(env, ReportRolledBack));
      SparedTruthful(spec, w, [Undone(spec.name, false), Deleted(spec.name, env.removeOk)] + Fail(env));
    }
  }

  lemma KubeApplyTruthful(spec: Spec, env: Env, w: World)
    requires Kept(spec, w)
    ensures KubeTruthfulFrom(spec, env, w, Run)
  {
    if !env.buildOk {
      FailuresTruthful(spec, env, w);
    } else if !env.runOk {
      SparedTruthful(spec, w, [Applied(spec.name, env.applyLeft), Deleted(spec.name, env.removeOk)] + Fail(env));
    } else {
      AlwaysMore2(Truthful(spec), w, Applied(spec.name, true), Save(env, Health), KubeFrom(spec, env, Health));
      KubeHealthTruthful(spec, env, Apply(Apply(w, Applied(spec.name, true)), Save(env, Health)));
    }
  }

  lemma KubeFetchTruthful(spec: Spec, env: Env, w: World)
    requires Kept(spec, w)
    ensures KubeTruthfulFrom(spec, env, w, Fetch)
  {
    FailuresTruthful(spec, env, w);
    AlwaysMore(Truthful(spec), w, Save(env, Run), KubeFrom(spec, env, Run));
    KubeApplyTruthful(spec, env, Apply(w, Save(env, Run)));
  }

  predicate KubeLosesTheStop(spec: Spec, env: Env, left: Option<Step>) {
    && HasOther(spec)
    && env.specOk && env.startReply == Accepted && env.secretsOk && env.fetchOk && env.buildOk
    && env.runOk && env.healthOk && env.drainOk && env.stopOk
    && !env.saveOk(StopPrev)
    && (SaysBroken(left) || env.saveOk(Fetch) || env.saveOk(Run) || env.saveOk(Health))
  }

  lemma KubeStopEntry(env: Env, left: Option<Step>)
    ensures SaysBroken(KubeEntryAtStop(env, Fetch, Written(env, left, Fetch)))
       <==> (!env.saveOk(StopPrev) && (SaysBroken(left) || env.saveOk(Fetch) || env.saveOk(Run) || env.saveOk(Health)))
    ensures KubeReaches(env, Fetch)
       <==> (env.fetchOk && env.buildOk && env.runOk && env.healthOk && env.drainOk && env.stopOk)
  {
    assert KubeReaches(env, Run) == (env.buildOk && env.runOk && KubeReaches(env, Health));
    var r := Written(env, Written(env, left, Fetch), Run);
    assert KubeEntryAtStop(env, Run, r) == KubeEntryAtStop(env, Health, Written(env, r, Health));
  }

  lemma KubeLeasedTruthful(spec: Spec, env: Env, w: World)
    requires Kept(spec, w)
    ensures Always(Truthful(spec), w, KubeLeased(spec, env))
       <==> !(HasOther(spec) && env.secretsOk && KubeReaches(env, Fetch)
              && SaysBroken(KubeEntryAtStop(env, Fetch, Written(env, w.journal, Fetch))))
  {
    FailuresTruthful(spec, env, w);
    AlwaysMore(Truthful(spec), w, Save(env, Fetch), KubeFrom(spec, env, Fetch));
    KubeFetchTruthful(spec, env, Apply(w, Save(env, Fetch)));
  }

  /** The same on Kubernetes. */
  lemma KubeMisreportedIffStopUnwritten(spec: Spec, fold: string -> string, env: Env, w: World)
    requires Initial(Folded(spec, fold), w)
    ensures (exists k :: 0 <= k <= |KubeRun(spec, fold, env)|
                         && Misreported(Folded(spec, fold), After(w, KubeRun(spec, fold, env)[..k])))
       <==> KubeLosesTheStop(Folded(spec, fold), env, w.journal)
  {
    var named, run := Folded(spec, fold), KubeRun(spec, fold, env);
    KubeLeasedTruthful(named, env, w);
    ClaimedTruthful(named, env, w, KubeLeased(named, env));
    KubeStopEntry(env, w.journal);
    FailsSomewhere(Truthful(named), w, run);
    forall k | 0 <= k <= |run|
      ensures Misreported(named, After(w, run[..k])) <==> !Truthful(named)(After(w, run[..k])) {}
  }

  // ----- redeploying under the same name -----

  predicate GapFree(prev: string, w: World) {
    prev in w.up || w.healthy
  }

  /** The zero-gap rule, for a previous container that may bear the new one's name. */
  ghost predicate NeverGaps(spec: Spec, env: Env, w: World) {
    forall k :: 0 <= k <= |ContainerRun(spec, env)| && spec.prev.Some? ==>
                  GapFree(spec.prev.value, After(w, ContainerRun(spec, env)[..k]))
  }

  function AllWell(): Env {
    Env(true, Accepted, true, true, true, true, true, true, true, true, true, true, true, true, Accepted, s => true, true)
  }

  lemma SameNameGaps(spec: Spec, w: World)
    requires spec.prev == Some(spec.name) && !w.healthy
    ensures !NeverGaps(spec, AllWell(), w)
  {
    var env := AllWell();
    var run := ContainerRun(spec, env);
    if NeverGaps(spec, env, w) {
      var good := (x: World) => GapFree(spec.name, x);
      PrefixesAlways(good, w, run);
      var p := Posted(ReportStart, Accepted);
      AlwaysMore(good, w, p, Leased(spec, env));
      var w1 := Apply(w, p);
      AlwaysMore(good, w1, Save(env, Fetch), From(spec, env, Fetch));
      var w2 := Apply(w1, Save(env, Fetch));
      AlwaysMore(good, w2, Save(env, Build), From(spec, env, Build));
      var w3 := Apply(w2, Save(env, Build));
      AlwaysMore(good, w3, Save(env, Run), From(spec, env, Run));
      var w4 := Apply(w3, Save(env, Run));
      AlwaysMore3(good, w4, Removed(spec.name, env.clearOk), Started(spec.name, true), Save(env, Health), From(spec, env, Health));
      assert false;
    }
  }

  /** The rule holds for every outcome exactly when the previous container has another name:
      starting a container first removes any of the same name. */
  lemma ZeroGapIffOtherName(spec: Spec, w: World)
    requires spec.prev.Some? && spec.prev.value in w.up && Initial(spec, w)
    ensures (forall env :: NeverGaps(spec, env, w)) <==> spec.prev.value != spec.name
  {
    if spec.prev.value != spec.name {
      forall env ensures NeverGaps(spec, env, w) {
        forall k | 0 <= k <= |ContainerRun(spec, env)|
          ensures GapFree(spec.prev.value, After(w, ContainerRun(spec, env)[..k]))
        {
          ContainerRunSafe(spec, env, w, k);
        }
      }
    } else {
      SameNameGaps(spec, w);
    }
  }
}
