/** The firewall subcommand (agent/cmd/wharfinger-agent/firewall.go): a plan of tagged rules for
    the DOCKER-USER chain, applied rule by rule, resumed after an interruption, and reverted. */
module Firewall {
  import opened Options
  import opened Strings

  type Rule = seq<string>      // the words of a rule, as iptables lists them

  /** pos > 0 inserts at that position of the chain, pos == 0 appends. */
  datatype FwRule = FwRule(pos: nat, spec: Rule)

  // ----- the chain -----

  function Inserted(chain: seq<Rule>, pos: nat, spec: Rule): seq<Rule>
    requires 0 < pos <= |chain| + 1
  {
    chain[..pos - 1] + [spec] + chain[pos - 1..]
  }

  /** One rule of the plan: nothing if it is present, nothing either if its position lies beyond
      the chain (iptables refuses). */
  function AppliedOne(chain: seq<Rule>, r: FwRule): seq<Rule> {
    if r.spec in chain then chain
    else if r.pos == 0 then chain + [r.spec]
    else if r.pos <= |chain| + 1 then Inserted(chain, r.pos, r.spec)
    else chain
  }

  function Applied(chain: seq<Rule>, plan: seq<FwRule>): seq<Rule> {
    if plan == [] then chain else AppliedOne(Applied(chain, plan[..|plan| - 1]), plan[|plan| - 1])
  }

  function WithoutFirst(chain: seq<Rule>, spec: Rule): seq<Rule> {
    if chain == [] then []
    else if chain[0] == spec then chain[1..]
    else [chain[0]] + WithoutFirst(chain[1..], spec)
  }

  lemma {:induction false} WithoutFirstAt(chain: seq<Rule>, spec: Rule, i: nat)
    requires i < |chain| && chain[i] == spec && spec !in chain[..i]
    ensures WithoutFirst(chain, spec) == chain[..i] + chain[i + 1..]
  {
    if i > 0 {
      assert chain[0] == chain[..i][0];
      assert chain[1..][..i - 1] == chain[..i][1..];
      WithoutFirstAt(chain[1..], spec, i - 1);
      assert chain[1..][i..] == chain[i + 1..];
      assert [chain[0]] + chain[..i][1..] == chain[..i];
    }
  }

  lemma {:induction false} WithoutAbsent(chain: seq<Rule>, spec: Rule)
    requires spec !in chain
    ensures WithoutFirst(chain, spec) == chain
  {
    if chain != [] { WithoutAbsent(chain[1..], spec); }
  }

  /** The plan's rules fit: every insertion finds its position. */
  predicate Fits(chain: seq<Rule>, plan: seq<FwRule>) {
    forall k :: 0 <= k < |plan| ==> plan[k].spec in Applied(chain, plan[..k]) || plan[k].pos <= |Applied(chain, plan[..k])| + 1
  }

  class Chain {
    var rules: seq<Rule>

    constructor (rules: seq<Rule>)
      ensures this.rules == rules
    {
      this.rules := rules;
    }

    /** iptables -I */
    method Insert(pos: nat, spec: Rule) returns (ok: bool)
      requires pos > 0
      modifies this
      ensures ok == (pos <= |old(rules)| + 1)
      ensures rules == if ok then Inserted(old(rules), pos, spec) else old(rules)
    {
      if pos > |rules| + 1 { return false; }
      rules := rules[..pos - 1] + [spec] + rules[pos - 1..];
      ok := true;
    }

    /** iptables -D */
    method Delete(spec: Rule) returns (ok: bool)
      modifies this
      ensures ok == (spec in old(rules))
      ensures rules == WithoutFirst(old(rules), spec)
    {
      var i := 0;
      while i < |rules| && rules[i] != spec
        invariant 0 <= i <= |rules| && spec !in rules[..i]
      {
        i := i + 1;
      }
      ok := i < |rules|;
      if ok {
        WithoutFirstAt(rules, spec, i);
        rules := rules[..i] + rules[i + 1..];
      } else {
        assert rules[..i] == rules;
        WithoutAbsent(rules, spec);
      }
    }

    /** The apply loop; the first `cut` rules are reached before a command fails or the run is
        stopped. */
    method Apply(plan: seq<FwRule>, cut: nat) returns (done: bool)
      modifies this
      ensures Fits(old(rules), plan) ==>
                rules == Applied(old(rules), plan[..if cut < |plan| then cut else |plan|]) && done == (cut >= |plan|)
    {
      ghost var start := rules;
      var i := 0;
      while i < |plan| && i < cut
        invariant 0 <= i <= |plan| && i <= cut
        invariant Fits(start, plan) ==> rules == Applied(start, plan[..i])
      {
        var r := plan[i];
        assert plan[..i + 1][..i] == plan[..i];
        ghost var had := rules;
        if r.spec !in rules {
          if r.pos > 0 {
            var ok := Insert(r.pos, r.spec);
            if !ok { return false; }
          } else {
            rules := rules + [r.spec];
          }
        }
        assert rules == AppliedOne(had, r);
        i := i + 1;
      }
      done := i == |plan|;
    }

    /** The revert loop over the listed specs; stops at the first that is not there. */
    method Revert(specs: seq<Rule>, cut: nat) returns (done: bool)
      modifies this
      ensures Deletable(old(rules), specs) ==>
                rules == Deleted(old(rules), specs[..if cut < |specs| then cut else |specs|]) && done == (cut >= |specs|)
    {
      ghost var start := rules;
      var i := 0;
      while i < |specs| && i < cut
        invariant 0 <= i <= |specs| && i <= cut
        invariant Deletable(start, specs) ==> rules == Deleted(start, specs[..i])
      {
        DeletedMore(start, specs, i);
        var ok := Delete(specs[i]);
        if !ok { return false; }
        i := i + 1;
      }
      done := i == |specs|;
    }
  }

  function Deleted(chain: seq<Rule>, specs: seq<Rule>): seq<Rule> {
    if specs == [] then chain else WithoutFirst(Deleted(chain, specs[..|specs| - 1]), specs[|specs| - 1])
  }

  lemma DeletedMore(chain: seq<Rule>, specs: seq<Rule>, i: nat)
    requires i < |specs|
    ensures Deleted(chain, specs[..i + 1]) == WithoutFirst(Deleted(chain, specs[..i]), specs[i])
    ensures Deletable(chain, specs) ==> specs[i] in Deleted(chain, specs[..i])
  {
    assert specs[..i + 1][..i] == specs[..i];
  }

  predicate Deletable(chain: seq<Rule>, specs: seq<Rule>) {
    forall k :: 0 <= k < |specs| ==> specs[k] in Deleted(chain, specs[..k])
  }

  // ----- the fix as a shape of the chain -----

  /** The early returns, the jump to ufw, and the drops. */
  datatype Fix = Fix(early: seq<Rule>, jump: Rule, drops: seq<Rule>)

  function Tops(rules: seq<Rule>): seq<FwRule> {
    seq(|rules|, i requires 0 <= i < |rules| => FwRule(i + 1, rules[i]))
  }

  function Appends(rules: seq<Rule>): seq<FwRule> {
    seq(|rules|, i requires 0 <= i < |rules| => FwRule(0, rules[i]))
  }

  function Plan(fix: Fix, ufw: bool): seq<FwRule> {
    Tops(fix.early) + (if ufw then [FwRule(|fix.early| + 1, fix.jump)] else []) + Appends(fix.drops)
  }

  /** How much of the fix a chain holds. */
  datatype Part = Part(early: nat, jump: bool, drops: nat)

  predicate Fitting(fix: Fix, p: Part) {
    && p.early <= |fix.early| && p.drops <= |fix.drops|
    && (p.jump || p.drops > 0 ==> p.early == |fix.early|)
  }

  function Shape(fix: Fix, own: seq<Rule>, p: Part): seq<Rule>
    requires Fitting(fix, p)
  {
    fix.early[..p.early] + (if p.jump then [fix.jump] else []) + own + fix.drops[..p.drops]
  }

  predicate Separate(a: seq<Rule>, b: seq<Rule>) {
    forall i, j :: 0 <= i < |a| && 0 <= j < |b| ==> a[i] != b[j]
  }

  predicate Distinct(a: seq<Rule>) {
    forall i, j :: 0 <= i < j < |a| ==> a[i] != a[j]
  }

  /** The fix's rules differ from each other and from the chain's own. */
  predicate Apart(fix: Fix, own: seq<Rule>) {
    && Distinct(fix.early) && Distinct(fix.drops) && Separate(fix.early, fix.drops)
    && fix.jump !in fix.early && fix.jump !in fix.drops && fix.jump !in own
    && Separate(fix.early, own) && Separate(fix.drops, own)
  }

  function Max(a: int, b: int): int {
    if a < b then b else a
  }

  /** The part after the first k rules of a plan were considered. */
  function Reached(fix: Fix, p: Part, ufw: bool, k: nat): (q: Part)
    requires Fitting(fix, p) && k <= |Plan(fix, ufw)|
    ensures Fitting(fix, q)
  {
    var n := |fix.early|;
    Part(Max(p.early, if k < n then k else n), p.jump || (ufw && k > n), Max(p.drops, k - n - if ufw then 1 else 0))
  }

  lemma InShape(fix: Fix, own: seq<Rule>, p: Part, x: Rule)
    requires Fitting(fix, p)
    ensures x in Shape(fix, own, p) <==>
              (x in fix.early[..p.early] || (p.jump && x == fix.jump) || x in own || x in fix.drops[..p.drops])
  {}

  lemma InPrefix(rules: seq<Rule>, k: nat, i: nat)
    requires Distinct(rules) && k <= |rules| && i < |rules|
    ensures rules[i] in rules[..k] <==> i < k
  {
    if i < k { assert rules[..k][i] == rules[i]; }
  }

  lemma ReturnStep(fix: Fix, own: seq<Rule>, p: Part, k: nat)
    requires Apart(fix, own) && Fitting(fix, p) && k < |fix.early| && p.early >= k
    ensures AppliedOne(Shape(fix, own, p), FwRule(k + 1, fix.early[k])) == Shape(fix, own, p.(early := Max(p.early, k + 1)))
  {
    var x, chain := fix.early[k], Shape(fix, own, p);
    InShape(fix, own, p, x);
    InPrefix(fix.early, p.early, k);
    if p.early == k {
      assert fix.early[..k] + [x] == fix.early[..k + 1];
      assert chain[..k] == fix.early[..k];
    }
  }

  lemma JumpStep(fix: Fix, own: seq<Rule>, p: Part)
    requires Apart(fix, own) && Fitting(fix, p) && p.early == |fix.early|
    ensures AppliedOne(Shape(fix, own, p), FwRule(|fix.early| + 1, fix.jump)) == Shape(fix, own, p.(jump := true))
  {
    InShape(fix, own, p, fix.jump);
    var n, chain := |fix.early|, Shape(fix, own, p);
    if !p.jump {
      assert chain[..n] == fix.early[..n] && chain[n..] == own + fix.drops[..p.drops];
    }
  }

  lemma DropStep(fix: Fix, own: seq<Rule>, p: Part, j: nat)
    requires Apart(fix, own) && Fitting(fix, p) && p.early == |fix.early| && j < |fix.drops| && p.drops >= j
    ensures AppliedOne(Shape(fix, own, p), FwRule(0, fix.drops[j])) == Shape(fix, own, p.(drops := Max(p.drops, j + 1)))
  {
    var x := fix.drops[j];
    InShape(fix, own, p, x);
    InPrefix(fix.drops, p.drops, j);
    if p.drops == j {
      assert fix.drops[..j] + [x] == fix.drops[..j + 1];
    }
  }

  lemma PlanAt(fix: Fix, ufw: bool, k: nat)
    requires k < |Plan(fix, ufw)|
    ensures var n, u := |fix.early|, if ufw then 1 else 0;
            && |Plan(fix, ufw)| == n + u + |fix.drops|
            && Plan(fix, ufw)[k] == if k < n then FwRule(k + 1, fix.early[k])
                                    else if k < n + u then FwRule(n + 1, fix.jump)
                                    else FwRule(0, fix.drops[k - n - u])
  {}

  lemma StepReaches(fix: Fix, own: seq<Rule>, p: Part, ufw: bool, k: nat)
    requires Apart(fix, own) && Fitting(fix, p) && k < |Plan(fix, ufw)|
    ensures AppliedOne(Shape(fix, own, Reached(fix, p, ufw, k)), Plan(fix, ufw)[k]) == Shape(fix, own, Reached(fix, p, ufw, k + 1))
  {
    PlanAt(fix, ufw, k);
    var n, u := |fix.early|, if ufw then 1 else 0;
    var q := Reached(fix, p, ufw, k);
    if k < n {
      ReturnStep(fix, own, q, k);
    } else if k < n + u {
      JumpStep(fix, own, q);
    } else {
      DropStep(fix, own, q, k - n - u);
    }
  }

  lemma AppliedMore(chain: seq<Rule>, plan: seq<FwRule>, k: nat)
    requires k < |plan|
    ensures Applied(chain, plan[..k + 1]) == AppliedOne(Applied(chain, plan[..k]), plan[k])
  {
    assert plan[..k + 1][..k] == plan[..k];
  }

  lemma NothingReached(fix: Fix, own: seq<Rule>, p: Part, ufw: bool)
    requires Fitting(fix, p)
    ensures Applied(Shape(fix, own, p), Plan(fix, ufw)[..0]) == Shape(fix, own, Reached(fix, p, ufw, 0))
  {
    assert Reached(fix, p, ufw, 0) == p;
    assert Plan(fix, ufw)[..0] == [];
  }

  /** A run over a chain that holds part of the fix, stopped after k rules. */
  lemma {:induction false} RunReaches(fix: Fix, own: seq<Rule>, p: Part, ufw: bool, k: nat)
    requires Apart(fix, own) && Fitting(fix, p) && k <= |Plan(fix, ufw)|
    ensures Applied(Shape(fix, own, p), Plan(fix, ufw)[..k]) == Shape(fix, own, Reached(fix, p, ufw, k))
  {
    if k > 0 {
      RunReaches(fix, own, p, ufw, k - 1);
      StepReaches(fix, own, p, ufw, k - 1);
      AppliedMore(Shape(fix, own, p), Plan(fix, ufw), k - 1);
    } else {
      NothingReached(fix, own, p, ufw);
    }
  }

  lemma PlanFits(fix: Fix, own: seq<Rule>, p: Part, ufw: bool)
    requires Apart(fix, own) && Fitting(fix, p)
    ensures Fits(Shape(fix, own, p), Plan(fix, ufw))
  {
    forall k | 0 <= k < |Plan(fix, ufw)|
      ensures Plan(fix, ufw)[k].pos <= |Applied(Shape(fix, own, p), Plan(fix, ufw)[..k])| + 1
    {
      RunReaches(fix, own, p, ufw, k);
      PlanAt(fix, ufw, k);
    }
  }

  // ----- interrupted runs -----

  /** One run of the command: whether ufw was active, and how many rules it got through. */
  datatype Attempt = Attempt(ufw: bool, cut: nat)

  function Ran(fix: Fix, chain: seq<Rule>, a: Attempt): seq<Rule> {
    var plan := Plan(fix, a.ufw);
    Applied(chain, plan[..if a.cut < |plan| then a.cut else |plan|])
  }

  function RanAll(fix: Fix, chain: seq<Rule>, attempts: seq<Attempt>): seq<Rule>
    decreases |attempts|
  {
    if attempts == [] then chain else RanAll(fix, Ran(fix, chain, attempts[0]), attempts[1..])
  }

  /** Some attempt got as far as the jump. */
  predicate Jumped(fix: Fix, attempts: seq<Attempt>) {
    exists i :: 0 <= i < |attempts| && JumpedIn(fix, attempts[i])
  }

  predicate JumpedIn(fix: Fix, a: Attempt) {
    a.ufw && a.cut > |fix.early|
  }

  lemma {:induction false} AttemptsReach(fix: Fix, own: seq<Rule>, p: Part, attempts: seq<Attempt>) returns (q: Part)
    requires Apart(fix, own) && Fitting(fix, p)
    ensures Fitting(fix, q) && RanAll(fix, Shape(fix, own, p), attempts) == Shape(fix, own, q)
    ensures q.jump == (p.jump || Jumped(fix, attempts))
    decreases |attempts|
  {
    if attempts == [] {
      q := p;
    } else {
      var a := attempts[0];
      var plan := Plan(fix, a.ufw);
      var k := if a.cut < |plan| then a.cut else |plan|;
      RunReaches(fix, own, p, a.ufw, k);
      q := AttemptsReach(fix, own, Reached(fix, p, a.ufw, k), attempts[1..]);
      JumpedSplits(fix, attempts);
    }
  }

  lemma JumpedSplits(fix: Fix, attempts: seq<Attempt>)
    requires attempts != []
    ensures Jumped(fix, attempts) <==> JumpedIn(fix, attempts[0]) || Jumped(fix, attempts[1..])
  {
    if Jumped(fix, attempts) && !JumpedIn(fix, attempts[0]) {
      var i :| 0 <= i < |attempts| && JumpedIn(fix, attempts[i]);
      assert attempts[1..][i - 1] == attempts[i];
    }
    if Jumped(fix, attempts[1..]) {
      var i :| 0 <= i < |attempts[1..]| && JumpedIn(fix, attempts[1..][i]);
      assert attempts[i + 1] == attempts[1..][i];
    }
  }

  lemma Whole(fix: Fix, own: seq<Rule>)
    requires Apart(fix, own)
    ensures Shape(fix, own, Part(0, false, 0)) == own
  {}

  function Full(fix: Fix, jump: bool): Part {
    Part(|fix.early|, jump, |fix.drops|)
  }

  lemma FullRun(fix: Fix, own: seq<Rule>, p: Part, ufw: bool)
    requires Apart(fix, own) && Fitting(fix, p)
    ensures Applied(Shape(fix, own, p), Plan(fix, ufw)) == Shape(fix, own, Full(fix, p.jump || ufw))
  {
    var plan := Plan(fix, ufw);
    RunReaches(fix, own, p, ufw, |plan|);
    assert plan[..|plan|] == plan;
  }

  /** From a chain without the fix, after any attempts, each stopped anywhere and each with or
      without ufw, a full run leaves the whole fix around the chain's own rules, which keep their
      order; the jump is there exactly if this run or an attempt put it there. */
  lemma ResumedRunsComplete(fix: Fix, own: seq<Rule>, attempts: seq<Attempt>, ufw: bool)
    requires Apart(fix, own)
    ensures Applied(RanAll(fix, own, attempts), Plan(fix, ufw)) == Shape(fix, own, Full(fix, ufw || Jumped(fix, attempts)))
  {
    Whole(fix, own);
    var q := AttemptsReach(fix, own, Part(0, false, 0), attempts);
    FullRun(fix, own, q, ufw);
  }

  /** While ufw stays as it is, that is the chain one full run would have made. */
  lemma {:induction false} ResumedRunsEqualOne(fix: Fix, own: seq<Rule>, attempts: seq<Attempt>, ufw: bool)
    requires Apart(fix, own) && forall i :: 0 <= i < |attempts| ==> attempts[i].ufw == ufw
    ensures Applied(RanAll(fix, own, attempts), Plan(fix, ufw)) == Applied(own, Plan(fix, ufw))
  {
    ResumedRunsComplete(fix, own, attempts, ufw);
    Whole(fix, own);
    FullRun(fix, own, Part(0, false, 0), ufw);
  }

  /** After a full run another changes nothing, wherever it stops. */
  lemma RerunChangesNothing(fix: Fix, own: seq<Rule>, attempts: seq<Attempt>, ufw: bool, k: nat)
    requires Apart(fix, own) && k <= |Plan(fix, ufw)|
    ensures var chain := Applied(RanAll(fix, own, attempts), Plan(fix, ufw));
            Applied(chain, Plan(fix, ufw)[..k]) == chain
  {
    ResumedRunsComplete(fix, own, attempts, ufw);
    var p := Full(fix, ufw || Jumped(fix, attempts));
    RunReaches(fix, own, p, ufw, k);
    assert Reached(fix, p, ufw, k) == p;
  }

  // ----- the rules -----

  const TAG := "wharfinger-fwfix"
  const CHAIN_NAME := "DOCKER-USER"
  const NETS := ["10.0.0.0/8", "172.16.0.0/12", "192.168.0.0/16"]

  /** Matches first, then the comment that carries the tag, the jump last. */
  function Tagged(jump: string, spec: Rule): (r: Rule)
    ensures |r| == |spec| + 6 && r[|spec| + 3] == TAG && r[..|spec|] == spec
  {
    spec + ["-m", "comment", "--comment", TAG] + ["-j", jump]
  }

  function ReturnSpec(net: string): Rule {
    Tagged("RETURN", ["-s", net])
  }

  function TcpDrop(net: string): Rule {
    Tagged("DROP", ["-p", "tcp", "-m", "tcp", "--tcp-flags", "FIN,SYN,RST,ACK", "SYN", "-d", net])
  }

  function UdpDrop(net: string): Rule {
    Tagged("DROP", ["-p", "udp", "-d", net])
  }

  function Each(f: string -> Rule, nets: seq<string>): (rs: seq<Rule>)
    ensures |rs| == |nets| && forall i :: 0 <= i < |nets| ==> rs[i] == f(nets[i])
  {
    seq(|nets|, i requires 0 <= i < |nets| => f(nets[i]))
  }

  function TheFix(): Fix {
    Fix(Each(ReturnSpec, NETS), Tagged("ufw-user-forward", []), Each(TcpDrop, NETS) + Each(UdpDrop, NETS))
  }

  method FwFixRules(ufw: bool) returns (out: seq<FwRule>)
    ensures out == Plan(TheFix(), ufw)
  {
    out := [];
    ghost var tops := Tops(Each(ReturnSpec, NETS));
    for i := 0 to |NETS|
      invariant out == tops[..i]
    {
      out := out + [FwRule(i + 1, ReturnSpec(NETS[i]))];
    }
    if ufw {
      out := out + [FwRule(|NETS| + 1, Tagged("ufw-user-forward", []))];
    }
    ghost var top := out;
    out := AppendEach(out, TcpDrop);
    out := AppendEach(out, UdpDrop);
    AppendsConcat(Each(TcpDrop, NETS), Each(UdpDrop, NETS));
    assert out == top + (Appends(Each(TcpDrop, NETS)) + Appends(Each(UdpDrop, NETS)));
  }

  lemma AppendsConcat(a: seq<Rule>, b: seq<Rule>)
    ensures Appends(a + b) == Appends(a) + Appends(b)
  {}

  // The two loops that append one drop for each network.
  method AppendEach(before: seq<FwRule>, f: string -> Rule) returns (out: seq<FwRule>)
    ensures out == before + Appends(Each(f, NETS))
  {
    out := before;
    ghost var all := Appends(Each(f, NETS));
    for i := 0 to |NETS|
      invariant out == before + all[..i]
    {
      out := out + [FwRule(0, f(NETS[i]))];
    }
    assert all[..|NETS|] == all;
  }

  function TrimQuotes(s: string): (r: string)
    ensures |r| <= |s|
    ensures s != "" && s[0] != '"' && s[|s| - 1] != '"' ==> r == s
  {
    if s == "" then ""
    else if s[0] == '"' then TrimQuotes(s[1..])
    else if s[|s| - 1] == '"' then TrimQuotes(s[..|s| - 1])
    else s
  }

  predicate IsTagged(words: seq<string>) {
    exists k :: 0 <= k < |words| && TrimQuotes(words[k]) == TAG
  }

  lemma TaggedIsTagged(jump: string, spec: Rule)
    ensures IsTagged(Tagged(jump, spec))
  {
    assert TrimQuotes(Tagged(jump, spec)[|spec| + 3]) == TAG;
  }

  predicate AllTagged(rules: seq<Rule>) {
    forall i :: 0 <= i < |rules| ==> IsTagged(rules[i])
  }

  predicate NoneTagged(rules: seq<Rule>) {
    forall i :: 0 <= i < |rules| ==> !IsTagged(rules[i])
  }

  lemma FixIsTagged()
    ensures AllTagged(TheFix().early) && IsTagged(TheFix().jump) && AllTagged(TheFix().drops)
  {
    forall net: string ensures IsTagged(ReturnSpec(net)) && IsTagged(TcpDrop(net)) && IsTagged(UdpDrop(net)) {
      TaggedIsTagged("RETURN", ["-s", net]);
      TaggedIsTagged("DROP", ["-p", "tcp", "-m", "tcp", "--tcp-flags", "FIN,SYN,RST,ACK", "SYN", "-d", net]);
      TaggedIsTagged("DROP", ["-p", "udp", "-d", net]);
    }
    TaggedIsTagged("ufw-user-forward", []);
  }

  lemma NetsDistinct(i: nat, j: nat)
    requires i < j < |NETS|
    ensures NETS[i] != NETS[j]
  {
    assert |NETS[0]| == 10 && |NETS[1]| == 13 && |NETS[2]| == 14;
  }

  // Each rule of the fix ends its matches with its network, at a place its length tells.
  lemma SpecShapes(net: string)
    ensures |ReturnSpec(net)| == 8 && ReturnSpec(net)[1] == net
    ensures |TcpDrop(net)| == 15 && TcpDrop(net)[8] == net
    ensures |UdpDrop(net)| == 10 && UdpDrop(net)[3] == net
  {}

  lemma EachDistinct(f: string -> Rule, at: nat)
    requires forall net: string :: |f(net)| > at && f(net)[at] == net
    ensures Distinct(Each(f, NETS))
  {
    forall i, j | 0 <= i < j < |NETS| ensures Each(f, NETS)[i] != Each(f, NETS)[j] {
      NetsDistinct(i, j);
    }
  }

  lemma LengthsSeparate(f: string -> Rule, g: string -> Rule, n: nat)
    requires forall net: string :: |f(net)| == n && |g(net)| != n
    ensures Separate(Each(f, NETS), Each(g, NETS))
  {}

  lemma FixDistinct()
    ensures Distinct(TheFix().early) && Distinct(TheFix().drops) && Separate(TheFix().early, TheFix().drops)
    ensures TheFix().jump !in TheFix().early && TheFix().jump !in TheFix().drops
  {
    forall net: string ensures |ReturnSpec(net)| == 8 && ReturnSpec(net)[1] == net
                            && |TcpDrop(net)| == 15 && TcpDrop(net)[8] == net
                            && |UdpDrop(net)| == 10 && UdpDrop(net)[3] == net {
      SpecShapes(net);
    }
    EachDistinct(ReturnSpec, 1);
    EachDistinct(TcpDrop, 8);
    EachDistinct(UdpDrop, 3);
    LengthsSeparate(TcpDrop, UdpDrop, 15);
    LengthsSeparate(ReturnSpec, TcpDrop, 8);
    LengthsSeparate(ReturnSpec, UdpDrop, 8);
    assert |TheFix().jump| == 6;
  }

  lemma TagSeparates(a: seq<Rule>, b: seq<Rule>)
    requires AllTagged(a) && NoneTagged(b)
    ensures Separate(a, b)
  {}

  /** The fix is apart from any chain without tagged rules. */
  lemma FixApart(own: seq<Rule>)
    requires NoneTagged(own)
    ensures Apart(TheFix(), own)
  {
    var fix := TheFix();
    FixIsTagged();
    FixDistinct();
    TagSeparates(fix.early, own);
    TagSeparates(fix.drops, own);
    assert fix.jump !in own;
  }

  // ----- reverting -----

  function TaggedOf(chain: seq<Rule>): seq<Rule> {
    if chain == [] then [] else (if IsTagged(chain[0]) then [chain[0]] else []) + TaggedOf(chain[1..])
  }

  function UntaggedOf(chain: seq<Rule>): seq<Rule> {
    if chain == [] then [] else (if IsTagged(chain[0]) then [] else [chain[0]]) + UntaggedOf(chain[1..])
  }

  /** The chain without its first m tagged rules. */
  function Skipped(chain: seq<Rule>, m: nat): seq<Rule> {
    if chain == [] then []
    else if !IsTagged(chain[0]) then [chain[0]] + Skipped(chain[1..], m)
    else if m > 0 then Skipped(chain[1..], m - 1)
    else chain
  }

  lemma {:induction false} SkippedNone(chain: seq<Rule>)
    ensures Skipped(chain, 0) == chain
  {
    if chain != [] { SkippedNone(chain[1..]); }
  }

  lemma {:induction false} SkippedAll(chain: seq<Rule>)
    ensures Skipped(chain, |TaggedOf(chain)|) == UntaggedOf(chain)
  {
    if chain != [] { SkippedAll(chain[1..]); }
  }

  lemma {:induction false} TaggedOfTagged(chain: seq<Rule>, m: nat)
    requires m < |TaggedOf(chain)|
    ensures IsTagged(TaggedOf(chain)[m])
  {
    if IsTagged(chain[0]) {
      if m > 0 { TaggedOfTagged(chain[1..], m - 1); }
    } else {
      TaggedOfTagged(chain[1..], m);
    }
  }

  /** Deleting the next tagged rule takes away exactly its first occurrence. */
  lemma {:induction false} SkippedMore(chain: seq<Rule>, m: nat)
    requires m < |TaggedOf(chain)|
    ensures TaggedOf(chain)[m] in Skipped(chain, m)
    ensures WithoutFirst(Skipped(chain, m), TaggedOf(chain)[m]) == Skipped(chain, m + 1)
  {
    var head, rest := chain[0], chain[1..];
    TaggedOfTagged(chain, m);
    if !IsTagged(head) {
      SkippedMore(rest, m);
      var tail := Skipped(rest, m);
      assert ([head] + tail)[1..] == tail;
    } else if m > 0 {
      SkippedMore(rest, m - 1);
    } else {
      SkippedNone(rest);
    }
  }

  lemma {:induction false} DeletedSkips(chain: seq<Rule>, m: nat)
    requires m <= |TaggedOf(chain)|
    ensures Deleted(chain, TaggedOf(chain)[..m]) == Skipped(chain, m)
  {
    if m == 0 {
      SkippedNone(chain);
    } else {
      DeletedSkips(chain, m - 1);
      SkippedMore(chain, m - 1);
      assert TaggedOf(chain)[..m][..m - 1] == TaggedOf(chain)[..m - 1];
    }
  }

  /** Every listed tagged rule is found, and deleting them all leaves the other rules in order. */
  lemma RevertLeavesUntagged(chain: seq<Rule>)
    ensures Deletable(chain, TaggedOf(chain)) && Deleted(chain, TaggedOf(chain)) == UntaggedOf(chain)
  {
    var specs := TaggedOf(chain);
    forall k | 0 <= k < |specs| ensures specs[k] in Deleted(chain, specs[..k]) {
      DeletedSkips(chain, k);
      SkippedMore(chain, k);
    }
    DeletedSkips(chain, |specs|);
    assert specs[..|specs|] == specs;
    SkippedAll(chain);
  }

  lemma {:induction false} SkippedUntagged(chain: seq<Rule>, m: nat)
    ensures UntaggedOf(Skipped(chain, m)) == UntaggedOf(chain)
  {
    if chain != [] {
      var rest := chain[1..];
      if !IsTagged(chain[0]) {
        SkippedUntagged(rest, m);
        var more := [chain[0]] + Skipped(rest, m);
        assert more[1..] == Skipped(rest, m);
      } else if m > 0 {
        SkippedUntagged(rest, m - 1);
      }
    }
  }

  lemma {:induction false} UntaggedConcat(a: seq<Rule>, b: seq<Rule>)
    ensures UntaggedOf(a + b) == UntaggedOf(a) + UntaggedOf(b)
  {
    if a == [] {
      assert a + b == b;
    } else {
      UntaggedConcat(a[1..], b);
      assert (a + b)[1..] == a[1..] + b;
      Assoc(if IsTagged(a[0]) then [] else [a[0]], UntaggedOf(a[1..]), UntaggedOf(b));
    }
  }

  lemma {:induction false} UntaggedNone(a: seq<Rule>)
    requires AllTagged(a)
    ensures UntaggedOf(a) == []
  {
    if a != [] {
      assert IsTagged(a[0]);
      UntaggedNone(a[1..]);
    }
  }

  lemma {:induction false} UntaggedAll(a: seq<Rule>)
    requires NoneTagged(a)
    ensures UntaggedOf(a) == a
  {
    if a != [] {
      assert !IsTagged(a[0]);
      UntaggedAll(a[1..]);
    }
  }

  lemma ShapeUntagged(own: seq<Rule>, p: Part)
    requires NoneTagged(own) && Fitting(TheFix(), p)
    ensures UntaggedOf(Shape(TheFix(), own, p)) == own
  {
    var fix := TheFix();
    FixIsTagged();
    var top, jump, drops := fix.early[..p.early], if p.jump then [fix.jump] else [], fix.drops[..p.drops];
    UntaggedConcat(top + jump + own, drops);
    UntaggedConcat(top + jump, own);
    UntaggedConcat(top, jump);
    UntaggedNone(top);
    UntaggedNone(jump);
    UntaggedNone(drops);
    UntaggedAll(own);
  }

  /** From a chain without tagged rules, after any attempts to apply, reverting restores it in
      order, even if an earlier revert stopped after m deletions. */
  lemma RevertRestores(own: seq<Rule>, attempts: seq<Attempt>, m: nat)
    requires NoneTagged(own)
    ensures var chain := RanAll(TheFix(), own, attempts);
            && Deleted(chain, TaggedOf(chain)) == own
            && (m <= |TaggedOf(chain)| ==>
                  var left := Deleted(chain, TaggedOf(chain)[..m]); Deleted(left, TaggedOf(left)) == own)
  {
    var fix := TheFix();
    FixApart(own);
    Whole(fix, own);
    var q := AttemptsReach(fix, own, Part(0, false, 0), attempts);
    var chain := RanAll(fix, own, attempts);
    ShapeUntagged(own, q);
    RevertLeavesUntagged(chain);
    if m <= |TaggedOf(chain)| {
      DeletedSkips(chain, m);
      SkippedUntagged(chain, m);
      RevertLeavesUntagged(Skipped(chain, m));
    }
  }

  // ----- the listing -----

  predicate IsSpace(c: char) {
    c == ' ' || c == '\t' || c == '\n' || c == '\r'
  }

  /** strings.Fields: the runs of characters that are not white space. */
  function Fields(s: string): (fs: seq<string>)
    ensures s != "" && !IsSpace(s[0]) ==> fs != []
  {
    if s == "" then []
    else if IsSpace(s[0]) then Fields(s[1..])
    else if |s| > 1 && !IsSpace(s[1]) then
      var rest := Fields(s[1..]);
      [[s[0]] + rest[0]] + rest[1..]
    else [[s[0]]] + Fields(s[1..])
  }

  predicate IsWord(w: string) {
    w != "" && forall i :: 0 <= i < |w| ==> !IsSpace(w[i])
  }

  predicate AreWords(ws: seq<string>) {
    forall i :: 0 <= i < |ws| ==> IsWord(ws[i])
  }

  /** The spec to delete, if a listed line is a tagged rule of the chain. */
  function SpecOfLine(line: string): seq<Rule> {
    var fields := Fields(line);
    if |fields| < 3 || fields[0] != "-A" || fields[1] != CHAIN_NAME then []
    else if IsTagged(fields) then [fields[2..]]
    else []
  }

  function SpecsOf(lines: seq<string>): seq<Rule> {
    if lines == [] then [] else SpecOfLine(lines[0]) + SpecsOf(lines[1..])
  }

  method HasTag(fields: seq<string>) returns (tagged: bool)
    ensures tagged == IsTagged(fields)
  {
    tagged := false;
    var k := 0;
    while k < |fields| && !tagged
      invariant 0 <= k <= |fields|
      invariant tagged <==> exists j :: 0 <= j < k && TrimQuotes(fields[j]) == TAG
    {
      tagged := TrimQuotes(fields[k]) == TAG;
      k := k + 1;
    }
  }

  lemma SpecsUnfold(lines: seq<string>, i: nat)
    requires i < |lines|
    ensures SpecsOf(lines[i..]) == SpecOfLine(lines[i]) + SpecsOf(lines[i + 1..])
  {
    assert lines[i..][1..] == lines[i + 1..];
  }

  method FwRevertSpecs(saveOutput: string) returns (out: seq<Rule>)
    ensures out == SpecsOf(Split(saveOutput, '\n'))
  {
    out := [];
    var lines := Split(saveOutput, '\n');
    var i := 0;
    while i < |lines|
      invariant 0 <= i <= |lines|
      invariant out + SpecsOf(lines[i..]) == SpecsOf(lines)
    {
      var fields := Fields(lines[i]);
      ghost var before, later := out, SpecsOf(lines[i + 1..]);
      SpecsUnfold(lines, i);
      if |fields| >= 3 && fields[0] == "-A" && fields[1] == CHAIN_NAME {
        var tagged := HasTag(fields);
        if tagged { out := out + [fields[2..]]; }
      }
      assert out == before + SpecOfLine(lines[i]);
      Assoc(before, SpecOfLine(lines[i]), later);
      i := i + 1;
    }
    assert out + [] == out;
  }

  function Line(rule: Rule): string {
    Join(["-A", CHAIN_NAME] + rule, ' ')
  }

  function Lines(chain: seq<Rule>): (ls: seq<string>)
    ensures |ls| == |chain|
  {
    if chain == [] then [] else [Line(chain[0])] + Lines(chain[1..])
  }

  /** `iptables -S DOCKER-USER`: the chain, then its rules, a line each. */
  function Listing(chain: seq<Rule>): string {
    Join(["-N " + CHAIN_NAME] + Lines(chain), '\n') + "\n"
  }

  lemma {:induction false} FieldsAtSpace(word: string, tail: string)
    requires IsWord(word)
    ensures Fields(word + [' '] + tail) == [word] + Fields(tail)
  {
    var s := word + [' '] + tail;
    if |word| == 1 {
      assert s[1..] == [' '] + tail;
      assert s[1..][1..] == tail;
      assert [s[0]] == word;
    } else {
      FieldsAtSpace(word[1..], tail);
      assert s[1..] == word[1..] + [' '] + tail;
      assert [word[0]] + word[1..] == word;
    }
  }

  lemma {:induction false} FieldsWord(word: string)
    requires IsWord(word)
    ensures Fields(word) == [word]
  {
    if |word| == 1 {
      assert word[1..] == "" && [word[0]] == word;
    } else {
      FieldsWord(word[1..]);
      assert [word[0]] + word[1..] == word;
    }
  }

  lemma {:induction false} FieldsOfJoin(words: seq<string>)
    requires |words| >= 1 && AreWords(words)
    ensures Fields(Join(words, ' ')) == words
    decreases |words|
  {
    if |words| == 1 {
      FieldsWord(words[0]);
    } else {
      FieldsOfJoin(words[1..]);
      FieldsAtSpace(words[0], Join(words[1..], ' '));
      assert [words[0]] + words[1..] == words;
    }
  }

  lemma {:induction false} JoinHasNoNewline(words: seq<string>)
    requires |words| >= 1 && AreWords(words)
    ensures '\n' !in Join(words, ' ')
    decreases |words|
  {
    assert forall i :: 0 <= i < |words| ==> '\n' !in words[i];
    if |words| > 1 { JoinHasNoNewline(words[1..]); }
  }

  lemma PrefixWords(rule: Rule)
    requires AreWords(rule)
    ensures AreWords(["-A", CHAIN_NAME] + rule)
  {}

  lemma NoTagInPrefix(rule: Rule)
    ensures IsTagged(["-A", CHAIN_NAME] + rule) <==> IsTagged(rule)
  {
    var words := ["-A", CHAIN_NAME] + rule;
    assert |TAG| == 16 && |CHAIN_NAME| == 11;
    if IsTagged(rule) {
      var k :| 0 <= k < |rule| && TrimQuotes(rule[k]) == TAG;
      assert TrimQuotes(words[k + 2]) == TAG;
    }
    if IsTagged(words) {
      var k :| 0 <= k < |words| && TrimQuotes(words[k]) == TAG;
      assert TrimQuotes(rule[k - 2]) == TAG;
    }
  }

  lemma SpecOfRule(rule: Rule)
    requires AreWords(rule)
    ensures SpecOfLine(Line(rule)) == if IsTagged(rule) then [rule] else []
  {
    var words := ["-A", CHAIN_NAME] + rule;
    PrefixWords(rule);
    FieldsOfJoin(words);
    NoTagInPrefix(rule);
    assert words[2..] == rule;
    if IsTagged(rule) { assert |rule| > 0; }
  }

  predicate AllWords(chain: seq<Rule>) {
    forall i :: 0 <= i < |chain| ==> AreWords(chain[i])
  }

  lemma {:induction false} SpecsOfLines(chain: seq<Rule>)
    requires AllWords(chain)
    ensures SpecsOf(Lines(chain)) == TaggedOf(chain)
    ensures forall i :: 0 <= i < |chain| ==> '\n' !in Lines(chain)[i]
  {
    if chain != [] {
      SpecsOfLines(chain[1..]);
      SpecOfRule(chain[0]);
      PrefixWords(chain[0]);
      JoinHasNoNewline(["-A", CHAIN_NAME] + chain[0]);
      assert Lines(chain)[1..] == Lines(chain[1..]);
    }
  }

  lemma {:induction false} SpecsConcat(a: seq<string>, b: seq<string>)
    ensures SpecsOf(a + b) == SpecsOf(a) + SpecsOf(b)
  {
    if a == [] {
      assert a + b == b;
    } else {
      SpecsConcat(a[1..], b);
      assert (a + b)[1..] == a[1..] + b;
      Assoc(SpecOfLine(a[0]), SpecsOf(a[1..]), SpecsOf(b));
    }
  }

  lemma HeaderLine()
    ensures var h := "-N " + CHAIN_NAME; '\n' !in h && SpecOfLine(h) == []
  {
    var words := ["-N", CHAIN_NAME];
    assert AreWords(words);
    FieldsOfJoin(words);
    assert Join(words, ' ') == "-N " + CHAIN_NAME;
  }

  /** Reading the listing back gives exactly the chain's tagged rules, in order. */
  lemma ListingTellsTagged(chain: seq<Rule>)
    requires AllWords(chain)
    ensures SpecsOf(Split(Listing(chain), '\n')) == TaggedOf(chain)
  {
    var header := "-N " + CHAIN_NAME;
    var lines := [header] + Lines(chain);
    HeaderLine();
    SpecsOfLines(chain);
    SplitOfJoin(lines, '\n');
    SplitConcat(Join(lines, '\n'), "", '\n');
    assert Listing(chain) == Join(lines, '\n') + ['\n'] + "";
    SpecsConcat(lines, [""]);
    SpecsConcat([header], Lines(chain));
    assert SpecsOf([header]) == SpecOfLine(header) + SpecsOf([header][1..]);
    assert SpecsOf([""]) == SpecOfLine("") + SpecsOf([""][1..]);
  }
}
