/** Every accepted submit ends: no deadlock among tasks that hold the global permit while they wait for
    an agent permit, a measure that every step of a process decreases, and an idle executor that has all
    its permits back.  Exactly the executors without a zero limit have this property. */
module RunDrain {
  import opened RunSteps
  import opened RunSystem
  import opened Sizes

  // ---- The measure ----

  ghost function RankSum(m: map<TaskId, Task>): nat {
    |Where(m, AtRank(1))| + |Where(m, AtRank(2))| + |Where(m, AtRank(3))| + |Where(m, AtRank(4))| + |Where(m, AtRank(5))|
  }

  lemma RankSumUpdate(m: map<TaskId, Task>, t: TaskId, k: Task)
    requires t in m
    ensures RankSum(m[t := k]) + Rank(m[t]) == RankSum(m) + Rank(k)
  {
    RankBits(k);
    RankBits(m[t]);
    hide Where, Member, Rank;
    WhereUpdate(m, t, k, AtRank(1));
    WhereUpdate(m, t, k, AtRank(2));
    WhereUpdate(m, t, k, AtRank(3));
    WhereUpdate(m, t, k, AtRank(4));
    WhereUpdate(m, t, k, AtRank(5));
  }

  lemma RankBits(k: Task)
    ensures Rank(k) == Bit(Member(AtRank(1), k)) + Bit(Member(AtRank(2), k)) + Bit(Member(AtRank(3), k)) +
      Bit(Member(AtRank(4), k)) + Bit(Member(AtRank(5), k))
  {
  }

  ghost function WireOf(s: Sys, p: ProcId): set<Request> {
    set r | r in s.wire && r.token.proc == p
  }

  /** What is left to do for process p: two per step its tasks may still take, one per request on the wire. */
  ghost function Work(s: Sys, p: ProcId): nat
    requires p in s.procs
  {
    2 * RankSum(s.procs[p].tasks) + |WireOf(s, p)|
  }

  /** A step of process p's tasks, or the server or the network dealing with one of its requests. */
  predicate IsWorkOf(e: Event, p: ProcId) {
    match e
    case Stepped(p', _, step) => p' == p && !step.Submitting?
    case Served(r) => r.token.proc == p
    case Dropped(r) => r.token.proc == p
    case _ => false
  }

  predicate IsLifecycleOf(e: Event, p: ProcId) {
    match e
    case Start(p', _) => p' == p
    case Crash(p') => p' == p
    case Stepped(p', _, step) => p' == p && step.Submitting?
    case _ => false
  }

  lemma RankFalls(p: Proc, t: TaskId, step: Step)
    requires CanAdvance(p, t, step) && !step.Submitting?
    ensures t in p.tasks && Rank(TaskAfter(p, t, step)) < Rank(p.tasks[t])
  {
  }

  lemma RankSumFalls(p: Proc, t: TaskId, step: Step)
    requires CanAdvance(p, t, step) && !step.Submitting?
    ensures RankSum(Advance(p, t, step).tasks) < RankSum(p.tasks)
  {
    AdvanceMovesOne(p, t, step);
    RankFalls(p, t, step);
    hide Advance, CanAdvance, Rank, TaskAfter, RankSum;
    RankSumUpdate(p.tasks, t, TaskAfter(p, t, step));
  }

  /** Every step of process p, a cancellation included, uses up work; nobody else's step adds any. */
  lemma WorkFalls(s: Sys, e: Event, p: ProcId)
    requires Enabled(s, e) && p in s.procs && !IsLifecycleOf(e, p)
    ensures p in Apply(s, e).procs
    ensures Work(Apply(s, e), p) + (if IsWorkOf(e, p) then 1 else 0) <= Work(s, p)
  {
    hide Advance, CanAdvance, Rank, TaskAfter, RankSum;
    var s' := Apply(s, e);
    match e
    case Stepped(p', t, step) =>
      StepUsesWork(s, p', t, step, p);
    case Served(r) =>
      WireLess(s, s', r, p);
    case Dropped(r) =>
      WireLess(s, s', r, p);
    case _ =>
      assert WireOf(s', p) == WireOf(s, p);
  }

  lemma WireLess(s: Sys, s': Sys, r: Request, p: ProcId)
    requires r in s.wire && s'.wire == s.wire - {r}
    ensures |WireOf(s', p)| + (if r.token.proc == p then 1 else 0) == |WireOf(s, p)|
  {
    assert WireOf(s', p) == WireOf(s, p) - {r};
  }

  lemma StepUsesWork(s: Sys, p: ProcId, t: TaskId, step: Step, p': ProcId)
    requires Enabled(s, Stepped(p, t, step)) && p' in s.procs && (step.Submitting? ==> p != p')
    ensures var s' := Apply(s, Stepped(p, t, step));
      p' in s'.procs && Work(s', p') + (if p == p' then 1 else 0) <= Work(s, p')
  {
    if p == p' {
      OwnStepUsesWork(s, p, t, step);
    } else {
      var s' := Apply(s, Stepped(p, t, step));
      SendsOwn(s.procs[p], Token(p, t), step);
      hide Advance, CanAdvance, Sends, RankSum;
      assert WireOf(s', p') == WireOf(s, p');
    }
  }

  lemma OwnStepUsesWork(s: Sys, p: ProcId, t: TaskId, step: Step)
    requires Enabled(s, Stepped(p, t, step)) && !step.Submitting?
    ensures var s' := Apply(s, Stepped(p, t, step)); p in s'.procs && Work(s', p) < Work(s, p)
  {
    var s' := Apply(s, Stepped(p, t, step));
    var sent := Sends(s.procs[p], Token(p, t), step);
    SendsOwn(s.procs[p], Token(p, t), step);
    RankSumFalls(s.procs[p], t, step);
    hide Advance, CanAdvance, RankSum, Sends;
    AtMostOne(sent);
    WireGrows(WireOf(s, p), sent);
    assert WireOf(s', p) == WireOf(s, p) + sent;
  }

  lemma WireGrows(wire: set<Request>, sent: set<Request>)
    requires |sent| <= 1
    ensures |wire + sent| <= |wire| + 1
  {
    assert wire + sent == wire + (sent - wire);
    SubsetSize(sent - wire, sent);
  }

  function WorkDone(es: seq<Event>, p: ProcId): nat {
    if es == [] then 0 else (if IsWorkOf(es[0], p) then 1 else 0) + WorkDone(es[1..], p)
  }

  /** In every interleaving without a new submit to it, a process that stays up takes at most Work(s, p)
      further steps, whatever the other processes, the clock and the network do in between. */
  lemma {:induction false} WorkBounded(s: Sys, es: seq<Event>, s': Sys, p: ProcId)
    requires Runs(s, es, s') && p in s.procs
    requires forall i :: 0 <= i < |es| ==> !IsLifecycleOf(es[i], p)
    ensures p in s'.procs
    ensures WorkDone(es, p) + Work(s', p) <= Work(s, p)
    decreases |es|
  {
    if es != [] {
      WorkFalls(s, es[0], p);
      WorkBounded(Apply(s, es[0]), es[1..], s', p);
    }
  }

  // ---- No deadlock ----

  /** The limits of every agent that can be admitted let somebody in. */
  predicate LimitsPositive(cfg: Config) {
    forall a :: a in cfg.agents && cfg.agents[a].enabled ==> cfg.globalLimit >= 1 && cfg.agents[a].maxConcurrent >= 1
  }

  /** No answer to this task's SET can come any more: the request was lost, or Redis rejects its EX 0. */
  ghost predicate Unanswerable(s: Sys, tok: Token) {
    !Answered(s, tok) && forall r :: r in s.wire && r.SetNx? && r.token == tok ==> r.ttl == 0
  }

  /** A step that needs no cancellation and no failure that need not happen. */
  ghost predicate Progress(s: Sys, p: ProcId, e: Event) {
    Enabled(s, e) &&
    match e
    case Stepped(p', t, step) =>
      p' == p &&
      (match step
       case GlobalTaken => true
       case AgentTaken => true
       case LockAnswered(_) => true
       case LockBroken => Unanswerable(s, Token(p, t))
       case RunEnded(end) => end != Cancelled
       case UnlockEnded => true
       case _ => false)
    case Served(r) => r.token.proc == p
    case _ => false
  }

  predicate Idle(p: Proc) {
    forall t :: t in p.tasks ==> p.tasks[t].pc.Done?
  }

  /** An idle executor has all its permits back and no open run window. */
  lemma IdleHasAllPermits(p: Proc)
    requires Balanced(p) && Idle(p)
    ensures p.globalFree == p.cfg.globalLimit && p.inflight == 0
    ensures p.agentFree.Keys == p.cfg.agents.Keys
    ensures forall a :: a in p.agentFree ==> p.agentFree[a] == p.cfg.agents[a].maxConcurrent
  {
    assert Where(p.tasks, GlobalHolders) == {} && Where(p.tasks, InWindow) == {};
    forall a | a in p.agentFree ensures Where(p.tasks, AgentHolders(a)) == {} {
    }
  }

  lemma UnfinishedIsKnown(p: Proc, t: TaskId)
    requires Balanced(p) && t in p.tasks && !p.tasks[t].pc.Done?
    ensures Known(p.cfg, p.tasks[t].agent) && p.tasks[t].agent in p.agentFree
  {
    assert p.tasks[t].agent in p.agentFree.Keys;
  }

  lemma AgentPermitsFree(p: Proc, a: AgentId)
    requires Balanced(p) && a in p.agentFree
    requires forall t :: t in p.tasks ==> !HoldsAgent(p.tasks[t])
    ensures p.agentFree[a] == p.cfg.agents[a].maxConcurrent
  {
    assert Where(p.tasks, AgentHolders(a)) == {};
  }

  lemma GlobalPermitsFree(p: Proc)
    requires Balanced(p)
    requires forall t :: t in p.tasks ==> !HoldsGlobal(p.tasks[t])
    ensures p.globalFree == p.cfg.globalLimit
  {
    assert Where(p.tasks, GlobalHolders) == {};
  }

  lemma HolderAdvances(s: Sys, p: ProcId, t: TaskId) returns (e: Event)
    requires p in s.procs && t in s.procs[p].tasks && HoldsAgent(s.procs[p].tasks[t])
    requires s.procs[p].tasks[t].agent in s.procs[p].agentFree
    ensures Progress(s, p, e)
  {
    match s.procs[p].tasks[t].pc {
      case Locking => e := LockingAdvances(s, p, t);
      case Running => e := Stepped(p, t, RunEnded(Ok));
      case Unlocking(end) => e := Stepped(p, t, UnlockEnded);
    }
  }

  lemma LockingAdvances(s: Sys, p: ProcId, t: TaskId) returns (e: Event)
    requires p in s.procs && At(s.procs[p], t, Locking)
    ensures Progress(s, p, e)
  {
    var tok := Token(p, t);
    if Answered(s, tok) {
      e := Stepped(p, t, LockAnswered(tok in s.grants));
    } else if r :| r in s.wire && r.SetNx? && r.token == tok && r.ttl > 0 {
      e := Served(r);
    } else {
      assert Unanswerable(s, tok);
      e := Stepped(p, t, LockBroken);
    }
  }

  lemma TakeIsProgress(s: Sys, p: ProcId, t: TaskId) returns (e: Event)
    requires p in s.procs && (CanTakeGlobal(s.procs[p], t) || CanTakeAgent(s.procs[p], t))
    ensures Progress(s, p, e)
  {
    e := Stepped(p, t, if s.procs[p].tasks[t].pc == WaitGlobal then GlobalTaken else AgentTaken);
  }

  /** With positive limits an executor that is not idle can always go on, without any cancellation:
      when nobody holds an agent permit, a task that waits for one gets it, and when nobody holds the
      global permit either, a task that waits for that one gets it. */
  lemma NeverStuck(s: Sys, p: ProcId) returns (e: Event)
    requires p in s.procs && Balanced(s.procs[p]) && LimitsPositive(s.procs[p].cfg) && !Idle(s.procs[p])
    ensures Progress(s, p, e)
  {
    var q := s.procs[p];
    hide Balanced;
    hide Progress;
    if t :| t in q.tasks && HoldsAgent(q.tasks[t]) {
      UnfinishedIsKnown(q, t);
      e := HolderAdvances(s, p, t);
    } else if t :| t in q.tasks && q.tasks[t].pc == WaitAgent {
      UnfinishedIsKnown(q, t);
      AgentPermitsFree(q, q.tasks[t].agent);
      e := TakeIsProgress(s, p, t);
    } else {
      var t :| t in q.tasks && !q.tasks[t].pc.Done?;
      UnfinishedIsKnown(q, t);
      GlobalPermitsFree(q);
      e := TakeIsProgress(s, p, t);
    }
  }

  /** So every run that cannot be extended by such a step has ended with all permits returned. */
  lemma MaximalRunIsDrained(s: Sys, p: ProcId)
    requires Reachable(s) && p in s.procs && LimitsPositive(s.procs[p].cfg)
    requires forall e :: !Progress(s, p, e)
    ensures var q := s.procs[p];
      && Idle(q) && q.inflight == 0 && q.globalFree == q.cfg.globalLimit
      && q.agentFree == map a | a in q.cfg.agents :: q.cfg.agents[a].maxConcurrent
  {
    ReachableInv(s);
    hide Balanced, Progress, Idle;
    if !Idle(s.procs[p]) {
      var e := NeverStuck(s, p);
    }
    IdleHasAllPermits(s.procs[p]);
  }

  lemma ProgressIsWork(s: Sys, p: ProcId, e: Event)
    requires Progress(s, p, e)
    ensures Enabled(s, e) && IsWorkOf(e, p) && !IsLifecycleOf(e, p)
  {
  }

  lemma ConfigKept(s: Sys, e: Event, p: ProcId)
    requires Enabled(s, e) && p in s.procs && !IsLifecycleOf(e, p)
    ensures p in Apply(s, e).procs && Apply(s, e).procs[p].cfg == s.procs[p].cfg
  {
    if e.Stepped? {
      AdvanceMovesOne(s.procs[e.p], e.t, e.step);
      hide Advance, CanAdvance;
    }
  }

  lemma RunsCons(s: Sys, e: Event, es: seq<Event>, s': Sys)
    requires Enabled(s, e) && Runs(Apply(s, e), es, s')
    ensures Runs(s, [e] + es, s')
  {
    hide Enabled, Apply;
    assert ([e] + es)[1..] == es;
  }

  /** From every reachable state, progress steps of p alone bring it to idle with every permit returned. */
  lemma {:induction false} Drains(s: Sys, p: ProcId) returns (es: seq<Event>, s': Sys)
    requires Inv(s) && p in s.procs && LimitsPositive(s.procs[p].cfg)
    ensures Runs(s, es, s') && Inv(s') && p in s'.procs && s'.procs[p].cfg == s.procs[p].cfg && Idle(s'.procs[p])
    ensures forall e :: e in es ==> IsWorkOf(e, p)
    ensures s'.procs[p].globalFree == s.procs[p].cfg.globalLimit && s'.procs[p].inflight == 0
    decreases Work(s, p)
  {
    hide Progress, IsWorkOf, IsLifecycleOf, LimitsPositive, Apply, Enabled, Orderly, TableExact, Balanced, Work;
    if Idle(s.procs[p]) {
      es, s' := [], s;
      IdleHasAllPermits(s.procs[p]);
    } else {
      hide Idle;
      var e := NeverStuck(s, p);
      ProgressIsWork(s, p, e);
      InvStep(s, e);
      WorkFalls(s, e, p);
      ConfigKept(s, e, p);
      var rest;
      rest, s' := Drains(Apply(s, e), p);
      RunsCons(s, e, rest, s');
      es := [e] + rest;
    }
  }

  // ---- Zero limits are the only way to get stuck ----

  ghost predicate Stuck(s: Sys, p: ProcId) {
    p in s.procs && !Idle(s.procs[p]) && forall e :: !Progress(s, p, e)
  }

  /** An executor can get stuck in some interleaving if and only if an enabled agent, or the whole
      executor, has a limit of zero. */
  lemma StuckIffZeroLimit(p: ProcId, cfg: Config)
    ensures (exists s :: Reachable(s) && p in s.procs && s.procs[p].cfg == cfg && Stuck(s, p)) <==> !LimitsPositive(cfg)
  {
    if s :| Reachable(s) && p in s.procs && s.procs[p].cfg == cfg && Stuck(s, p) && LimitsPositive(cfg) {
      ReachableInv(s);
      var e := NeverStuck(s, p);
      assert false;
    }
    if !LimitsPositive(cfg) {
      var s := GetsStuck(p, cfg);
    }
  }

  lemma GetsStuck(p: ProcId, cfg: Config) returns (s: Sys)
    requires !LimitsPositive(cfg)
    ensures Reachable(s) && p in s.procs && s.procs[p].cfg == cfg && Stuck(s, p)
  {
    var a :| a in cfg.agents && cfg.agents[a].enabled && !(cfg.globalLimit >= 1 && cfg.agents[a].maxConcurrent >= 1);
    var start, submit, take := Start(p, cfg), Stepped(p, 0, Submitting(a, "external")), Stepped(p, 0, GlobalTaken);
    var s1 := Apply(INIT, start);
    s := Apply(s1, submit);
    RunsCons(s1, submit, [], s);
    RunsCons(INIT, start, [submit] + [], s);
    if cfg.globalLimit > 0 {
      s := AgentStuck(s1, p, cfg, a);
    } else {
      hide Runs;
      StuckWaiting(s, p);
    }
  }

  lemma AgentStuck(s1: Sys, p: ProcId, cfg: Config, a: AgentId) returns (s: Sys)
    requires a in cfg.agents && cfg.agents[a].enabled && cfg.globalLimit > 0 && cfg.agents[a].maxConcurrent == 0
    requires s1 == Apply(INIT, Start(p, cfg))
    ensures Reachable(s) && p in s.procs && s.procs[p].cfg == cfg && Stuck(s, p)
  {
    var start, submit, take := Start(p, cfg), Stepped(p, 0, Submitting(a, "external")), Stepped(p, 0, GlobalTaken);
    var s2 := Apply(s1, submit);
    s := Apply(s2, take);
    RunsCons(s2, take, [], s);
    RunsCons(s1, submit, [take] + [], s);
    RunsCons(INIT, start, [submit] + ([take] + []), s);
    hide Runs;
    StuckWaiting(s, p);
  }

  /** A lone task that waits for a permit nobody can give back is stuck. */
  lemma StuckWaiting(s: Sys, p: ProcId)
    requires p in s.procs && s.procs[p].tasks.Keys == {0} && s.wire == {}
    requires var q, k := s.procs[p], s.procs[p].tasks[0];
      || (k.pc == WaitGlobal && q.globalFree == 0)
      || (k.pc == WaitAgent && k.agent in q.agentFree && q.agentFree[k.agent] == 0)
    ensures Stuck(s, p)
  {
    forall e ensures !Progress(s, p, e) {
      if e.Stepped? && e.p == p && e.t != 0 {
        assert e.t !in s.procs[p].tasks;
      }
    }
  }
}
