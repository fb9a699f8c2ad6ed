/** One process's run executor: what `submit` does to the two semaphores, the gauge and the counters,
    cut at its await points.  A task is one suspended `submit` coroutine; each function below is the
    await-free stretch of code that the event loop runs when that coroutine is resumed. */
module RunSteps {
  import opened Sizes

  type AgentId = string
  type TaskId = nat

  datatype AgentSpec = AgentSpec(enabled: bool, timeoutSeconds: nat, maxConcurrent: nat)
  datatype Config = Config(globalLimit: nat, agents: map<AgentId, AgentSpec>, redis: bool)

  /** How the awaited `runner.run` ended: report with status OK, any other report, an exception, a cancellation. */
  datatype RunEnd = Ok | NotOk | Raised | Cancelled

  datatype Exit =
    | UnknownOrDisabled
    | CancelledWaiting
    | LockTaken
    | LockFailed            // the awaited SET raised, or was cancelled
    | Finished(end: RunEnd)
    | CutShort(end: RunEnd) // cancelled while awaiting the compare-and-delete

  datatype Pc = WaitGlobal | WaitAgent | Locking | Running | Unlocking(end: RunEnd) | Done(exit: Exit)

  datatype Task = Task(agent: AgentId, reason: string, pc: Pc)

  datatype Result = ResultOk | ResultError
  datatype RunLabel = RunLabel(agent: AgentId, trigger: string, result: Result)

  datatype Proc = Proc(
    cfg: Config,
    globalFree: int,
    agentFree: map<AgentId, int>,
    tasks: map<TaskId, Task>,
    inflight: int,
    runs: multiset<RunLabel>,
    durations: multiset<AgentId>)

  function Boot(cfg: Config): Proc {
    Proc(cfg, cfg.globalLimit, map a | a in cfg.agents :: cfg.agents[a].maxConcurrent, map[], 0, multiset{}, multiset{})
  }

  predicate Known(cfg: Config, agent: AgentId) {
    agent in cfg.agents && cfg.agents[agent].enabled
  }

  // ---- The steps ----

  function Submit(p: Proc, t: TaskId, agent: AgentId, reason: string): Proc
    requires t !in p.tasks
  {
    var pc := if Known(p.cfg, agent) then WaitGlobal else Done(UnknownOrDisabled);
    p.(tasks := p.tasks[t := Task(agent, reason, pc)])
  }

  /** Task t exists, is suspended at pc, and its agent has a semaphore. */
  predicate At(p: Proc, t: TaskId, pc: Pc) {
    t in p.tasks && p.tasks[t].pc == pc && p.tasks[t].agent in p.agentFree
  }

  function Move(p: Proc, t: TaskId, pc: Pc): Proc
    requires t in p.tasks
  {
    p.(tasks := p.tasks[t := p.tasks[t].(pc := pc)])
  }

  predicate CanTakeGlobal(p: Proc, t: TaskId) {
    At(p, t, WaitGlobal) && p.globalFree > 0
  }

  function TakeGlobal(p: Proc, t: TaskId): Proc
    requires CanTakeGlobal(p, t)
  {
    Move(p.(globalFree := p.globalFree - 1), t, WaitAgent)
  }

  predicate CanTakeAgent(p: Proc, t: TaskId) {
    At(p, t, WaitAgent) && p.agentFree[p.tasks[t].agent] > 0
  }

  function TakeAgent(p: Proc, t: TaskId): Proc
    requires CanTakeAgent(p, t)
  {
    var a := p.tasks[t].agent;
    var q := p.(agentFree := p.agentFree[a := p.agentFree[a] - 1]);
    if p.cfg.redis then Move(q, t, Locking) else EnterRun(q, t)
  }

  function EnterRun(p: Proc, t: TaskId): Proc
    requires t in p.tasks
  {
    Move(p.(inflight := p.inflight + 1), t, Running)
  }

  /** Both semaphores are released and the coroutine ends. */
  function Leave(p: Proc, t: TaskId, exit: Exit): Proc
    requires t in p.tasks && p.tasks[t].agent in p.agentFree
  {
    var a := p.tasks[t].agent;
    Move(p.(globalFree := p.globalFree + 1, agentFree := p.agentFree[a := p.agentFree[a] + 1]), t, Done(exit))
  }

  function CancelWait(p: Proc, t: TaskId): Proc
    requires At(p, t, WaitGlobal) || At(p, t, WaitAgent)
  {
    var held := if p.tasks[t].pc == WaitAgent then 1 else 0;
    Move(p.(globalFree := p.globalFree + held), t, Done(CancelledWaiting))
  }

  function LockAnswer(p: Proc, t: TaskId, acquired: bool): Proc
    requires At(p, t, Locking)
  {
    if acquired then EnterRun(p, t) else Leave(p, t, LockTaken)
  }

  function LockFail(p: Proc, t: TaskId): Proc
    requires At(p, t, Locking)
  {
    Leave(p, t, LockFailed)
  }

  /** The `except` clause counts a raised run at once; then the `finally` block closes the run window. */
  function CloseWindow(p: Proc, t: TaskId, end: RunEnd): Proc
    requires At(p, t, Running)
  {
    var k := p.tasks[t];
    p.(runs := p.runs + (if end == Raised then Label(k, ResultError) else multiset{}),
       durations := p.durations + multiset{k.agent},
       inflight := p.inflight - 1,
       tasks := p.tasks[t := k.(pc := Unlocking(end))])
  }

  /** Without Redis the `finally` block has nothing to await and the coroutine runs on. */
  function RunEnds(p: Proc, t: TaskId, end: RunEnd): Proc
    requires At(p, t, Running)
  {
    var q := CloseWindow(p, t, end);
    if p.cfg.redis then q else UnlockEnds(q, t)
  }

  predicate Unlocks(p: Proc, t: TaskId) {
    t in p.tasks && p.tasks[t].pc.Unlocking? && p.tasks[t].agent in p.agentFree
  }

  /** The code after the `try` statement: a returned report is counted only here. */
  function UnlockEnds(p: Proc, t: TaskId): Proc
    requires Unlocks(p, t)
  {
    var k := p.tasks[t];
    Leave(p.(runs := p.runs + Reported(k)), t, Finished(k.pc.end))
  }

  /** The increment of AGENT_RUNS for a run that returned a report. */
  function Reported(k: Task): multiset<RunLabel>
    requires k.pc.Unlocking?
  {
    match k.pc.end
    case Ok => Label(k, ResultOk)
    case NotOk => Label(k, ResultError)
    case _ => multiset{}
  }

  function UnlockCancel(p: Proc, t: TaskId): Proc
    requires Unlocks(p, t)
  {
    Leave(p, t, CutShort(p.tasks[t].pc.end))
  }

  datatype Step =
    | Submitting(agent: AgentId, reason: string)
    | GlobalTaken
    | AgentTaken
    | WaitCancelled
    | LockAnswered(acquired: bool)
    | LockBroken
    | RunEnded(end: RunEnd)
    | UnlockEnded
    | UnlockCancelled

  predicate CanAdvance(p: Proc, t: TaskId, step: Step) {
    match step
    case Submitting(_, _) => t !in p.tasks
    case GlobalTaken => CanTakeGlobal(p, t)
    case AgentTaken => CanTakeAgent(p, t)
    case WaitCancelled => At(p, t, WaitGlobal) || At(p, t, WaitAgent)
    case LockAnswered(_) => At(p, t, Locking)
    case LockBroken => At(p, t, Locking)
    case RunEnded(_) => At(p, t, Running)
    case UnlockEnded => Unlocks(p, t)
    case UnlockCancelled => Unlocks(p, t)
  }

  function Advance(p: Proc, t: TaskId, step: Step): Proc
    requires CanAdvance(p, t, step)
  {
    match step
    case Submitting(agent, reason) => Submit(p, t, agent, reason)
    case GlobalTaken => TakeGlobal(p, t)
    case AgentTaken => TakeAgent(p, t)
    case WaitCancelled => CancelWait(p, t)
    case LockAnswered(acquired) => LockAnswer(p, t, acquired)
    case LockBroken => LockFail(p, t)
    case RunEnded(end) => RunEnds(p, t, end)
    case UnlockEnded => UnlockEnds(p, t)
    case UnlockCancelled => UnlockCancel(p, t)
  }

  /** Where the step leaves the task. */
  function PcAfter(p: Proc, t: TaskId, step: Step): Pc
    requires CanAdvance(p, t, step)
  {
    match step
    case Submitting(agent, _) => if Known(p.cfg, agent) then WaitGlobal else Done(UnknownOrDisabled)
    case GlobalTaken => WaitAgent
    case AgentTaken => if p.cfg.redis then Locking else Running
    case WaitCancelled => Done(CancelledWaiting)
    case LockAnswered(acquired) => if acquired then Running else Done(LockTaken)
    case LockBroken => Done(LockFailed)
    case RunEnded(end) => if p.cfg.redis then Unlocking(end) else Done(Finished(end))
    case UnlockEnded => Done(Finished(p.tasks[t].pc.end))
    case UnlockCancelled => Done(CutShort(p.tasks[t].pc.end))
  }

  function TaskAfter(p: Proc, t: TaskId, step: Step): Task
    requires CanAdvance(p, t, step)
  {
    var k := if step.Submitting? then Task(step.agent, step.reason, WaitGlobal) else p.tasks[t];
    k.(pc := PcAfter(p, t, step))
  }

  /** A step moves its own task and no other. */
  lemma AdvanceMovesOne(p: Proc, t: TaskId, step: Step)
    requires CanAdvance(p, t, step)
    ensures var q := Advance(p, t, step);
      q.cfg == p.cfg && q.agentFree.Keys == p.agentFree.Keys && q.tasks == p.tasks[t := TaskAfter(p, t, step)]
  {
    if step.RunEnded? && !p.cfg.redis {
      var q := CloseWindow(p, t, step.end);
      UpdateTwice(p.tasks, t, q.tasks[t], TaskAfter(p, t, step));
    }
  }

  lemma UpdateTwice(m: map<TaskId, Task>, t: TaskId, k: Task, k': Task)
    ensures m[t := k][t := k'] == m[t := k']
  {
  }

  /** Task t has drawn its lock token and sent its SET. */
  predicate HasAsked(p: Proc, t: TaskId) {
    t in p.tasks && p.tasks[t].pc != WaitGlobal && p.tasks[t].pc != WaitAgent
  }

  /** Task t has left its run for good. */
  predicate HasRun(p: Proc, t: TaskId) {
    t in p.tasks && (p.tasks[t].pc.Unlocking? || p.tasks[t].pc.Done?)
  }

  /** Coroutines only move forward: no step takes back a SET that was sent or a run that ended, and
      under Redis a run is entered only on a granted lock. */
  lemma Forward(p: Proc, t: TaskId, step: Step)
    requires CanAdvance(p, t, step)
    ensures var q := Advance(p, t, step);
      && q.cfg == p.cfg
      && t in q.tasks && p.tasks.Keys <= q.tasks.Keys
      && (forall u :: u in p.tasks ==> q.tasks[u].agent == p.tasks[u].agent)
      && (forall u :: HasAsked(p, u) ==> HasAsked(q, u))
      && (forall u :: HasRun(p, u) ==> HasRun(q, u))
      && (step.AgentTaken? ==> t in p.tasks && !HasAsked(p, t) && HasAsked(q, t))
      && (step.RunEnded? ==> At(p, t, Running) && HasRun(q, t))
      && (forall u :: At(q, u, Running) ==>
            At(p, u, Running) || (u == t && (step == LockAnswered(true) || (step.AgentTaken? && !p.cfg.redis))))
  {
    AdvanceMovesOne(p, t, step);
    ForwardOne(p, t, step);
    hide Advance, CanAdvance, TaskAfter;
    var q := Advance(p, t, step);
    assert forall u :: u != t ==> (u in q.tasks <==> u in p.tasks);
    assert forall u :: u in p.tasks && u != t ==> q.tasks[u] == p.tasks[u];
  }

  lemma ForwardOne(p: Proc, t: TaskId, step: Step)
    requires CanAdvance(p, t, step)
    ensures var k := TaskAfter(p, t, step);
      && (t in p.tasks ==> k.agent == p.tasks[t].agent)
      && (HasAsked(p, t) ==> k.pc != WaitGlobal && k.pc != WaitAgent)
      && (HasRun(p, t) ==> k.pc.Unlocking? || k.pc.Done?)
      && (step.AgentTaken? ==> At(p, t, WaitAgent) && (k.pc == Locking || k.pc == Running))
      && (step.RunEnded? ==> At(p, t, Running) && (k.pc.Unlocking? || k.pc.Done?))
      && (k.pc == Running ==> step == LockAnswered(true) || (step.AgentTaken? && !p.cfg.redis))
  {
  }

  // ---- What a task stands for, read off its position alone ----

  predicate HoldsGlobal(k: Task) {
    k.pc == WaitAgent || HoldsAgent(k)
  }

  predicate HoldsAgent(k: Task) {
    k.pc == Locking || k.pc == Running || k.pc.Unlocking?
  }

  /** The AGENT_RUN_DURATION observation this task has made so far, if any. */
  function Observed(k: Task): multiset<AgentId> {
    match k.pc
    case Unlocking(_) => multiset{k.agent}
    case Done(Finished(_)) => multiset{k.agent}
    case Done(CutShort(_)) => multiset{k.agent}
    case _ => multiset{}
  }

  /** The AGENT_RUNS increment this task has made so far, if any. */
  function Tallied(k: Task): multiset<RunLabel> {
    match k.pc
    case Unlocking(Raised) => Label(k, ResultError)
    case Done(Finished(Ok)) => Label(k, ResultOk)
    case Done(Finished(NotOk)) => Label(k, ResultError)
    case Done(Finished(Raised)) => Label(k, ResultError)
    case Done(CutShort(Raised)) => Label(k, ResultError)
    case _ => multiset{}
  }

  function Label(k: Task, result: Result): multiset<RunLabel> {
    multiset{RunLabel(k.agent, k.reason, result)}
  }

  /** A group of tasks that some semaphore, gauge or counter keeps the size of. */
  datatype Account =
    | GlobalHolders
    | AgentHolders(agent: AgentId)
    | InWindow
    | Closed(agent: AgentId)
    | Counted(runs: RunLabel)
    | ClosedAny
    | CountedAny
    | Left(exit: Exit)
    | BeforeEnd
    | Uncounted
    | AtRank(rank: nat)

  predicate Member(g: Account, k: Task) {
    match g
    case GlobalHolders => HoldsGlobal(k)
    case AgentHolders(a) => k.agent == a && HoldsAgent(k)
    case InWindow => k.pc == Running
    case Closed(a) => a in Observed(k)
    case Counted(l) => l in Tallied(k)
    case ClosedAny => Observed(k) != multiset{}
    case CountedAny => Tallied(k) != multiset{}
    case Left(exit) => k.pc == Done(exit)
    case BeforeEnd => k.pc == WaitGlobal || k.pc == WaitAgent || k.pc == Locking || k.pc == Running
    case Uncounted => Observed(k) != multiset{} && Tallied(k) == multiset{}
    case AtRank(n) => Rank(k) >= n
  }

  /** How many steps a task has left at most. */
  function Rank(k: Task): nat {
    match k.pc
    case WaitGlobal => 5
    case WaitAgent => 4
    case Locking => 3
    case Running => 2
    case Unlocking(_) => 1
    case Done(_) => 0
  }

  function Where(m: map<TaskId, Task>, g: Account): set<TaskId> {
    set t | t in m && Member(g, m[t])
  }

  /** The books balance: every semaphore, gauge and counter is determined by where the tasks stand. */
  ghost predicate Balanced(p: Proc) {
    && p.globalFree >= 0
    && p.globalFree + |Where(p.tasks, GlobalHolders)| == p.cfg.globalLimit
    && p.agentFree.Keys == p.cfg.agents.Keys
    && (forall a :: a in p.agentFree ==>
          p.agentFree[a] >= 0 && p.agentFree[a] + |Where(p.tasks, AgentHolders(a))| == p.cfg.agents[a].maxConcurrent)
    && p.inflight == |Where(p.tasks, InWindow)|
    && (forall l :: p.runs[l] == |Where(p.tasks, Counted(l))|)
    && (forall a :: p.durations[a] == |Where(p.tasks, Closed(a))|)
    && |p.runs| == |Where(p.tasks, CountedAny)|
    && |p.durations| == |Where(p.tasks, ClosedAny)|
    && (forall t :: t in p.tasks && !p.tasks[t].pc.Done? ==> Known(p.cfg, p.tasks[t].agent))
  }

  function Was(m: map<TaskId, Task>, t: TaskId, g: Account): int {
    Bit(t in m && Member(g, m[t]))
  }

  lemma WhereUpdate(m: map<TaskId, Task>, t: TaskId, k: Task, g: Account)
    ensures |Where(m[t := k], g)| == |Where(m, g)| - Was(m, t, g) + Bit(Member(g, k))
  {
    hide Member, Bit;
    var before, after := Where(m, g), Where(m[t := k], g);
    assert forall x :: x != t ==> (x in after <==> x in before);
    SameApartFrom(before, after, t);
    assert t in after <==> Member(g, k);
    assert t in before <==> t in m && Member(g, m[t]);
  }

  function TallyAt(m: map<TaskId, Task>, t: TaskId): multiset<RunLabel> {
    if t in m then Tallied(m[t]) else multiset{}
  }

  function ObservedAt(m: map<TaskId, Task>, t: TaskId): multiset<AgentId> {
    if t in m then Observed(m[t]) else multiset{}
  }

  lemma AtMostOnce(k: Task, l: RunLabel)
    ensures Tallied(k)[l] == Bit(l in Tallied(k))
  {
  }

  lemma TallyUpdate(p: Proc, q: Proc, t: TaskId, k: Task, l: RunLabel)
    requires p.runs[l] == |Where(p.tasks, Counted(l))| && q.tasks == p.tasks[t := k]
    requires q.runs + TallyAt(p.tasks, t) == p.runs + Tallied(k)
    ensures q.runs[l] == |Where(q.tasks, Counted(l))|
  {
    WhereUpdate(p.tasks, t, k, Counted(l));
    AtMostOnce(k, l);
    if t in p.tasks { AtMostOnce(p.tasks[t], l); }
    hide Where;
    hide Tallied;
    assert (q.runs + TallyAt(p.tasks, t))[l] == (p.runs + Tallied(k))[l];
  }

  lemma ObservedUpdate(p: Proc, q: Proc, t: TaskId, k: Task, a: AgentId)
    requires p.durations[a] == |Where(p.tasks, Closed(a))| && q.tasks == p.tasks[t := k]
    requires q.durations + ObservedAt(p.tasks, t) == p.durations + Observed(k)
    ensures q.durations[a] == |Where(q.tasks, Closed(a))|
  {
    WhereUpdate(p.tasks, t, k, Closed(a));
    hide Where;
    assert (q.durations + ObservedAt(p.tasks, t))[a] == (p.durations + Observed(k))[a];
  }

  lemma TotalsUpdate(p: Proc, q: Proc, t: TaskId, k: Task)
    requires |p.runs| == |Where(p.tasks, CountedAny)| && |p.durations| == |Where(p.tasks, ClosedAny)|
    requires q.tasks == p.tasks[t := k]
    requires q.runs + TallyAt(p.tasks, t) == p.runs + Tallied(k)
    requires q.durations + ObservedAt(p.tasks, t) == p.durations + Observed(k)
    ensures |q.runs| == |Where(q.tasks, CountedAny)| && |q.durations| == |Where(q.tasks, ClosedAny)|
  {
    hide Where, Tallied, Observed;
    AtMostOneEach(k);
    if t in p.tasks { AtMostOneEach(p.tasks[t]); }
    assert Was(p.tasks, t, CountedAny) == |TallyAt(p.tasks, t)| && Was(p.tasks, t, ClosedAny) == |ObservedAt(p.tasks, t)|;
    assert Bit(Member(CountedAny, k)) == |Tallied(k)| && Bit(Member(ClosedAny, k)) == |Observed(k)|;
    hide Member, Was, TallyAt, ObservedAt;
    WhereUpdate(p.tasks, t, k, CountedAny);
    WhereUpdate(p.tasks, t, k, ClosedAny);
    SumSizes(q.runs, TallyAt(p.tasks, t), p.runs, Tallied(k));
    SumSizes(q.durations, ObservedAt(p.tasks, t), p.durations, Observed(k));
  }

  lemma SumSizes<T>(a: multiset<T>, b: multiset<T>, c: multiset<T>, d: multiset<T>)
    requires a + b == c + d
    ensures |a| + |b| == |c| + |d|
  {
    assert |a + b| == |a| + |b| && |c + d| == |c| + |d|;
  }

  lemma AtMostOneEach(k: Task)
    ensures |Tallied(k)| == Bit(Tallied(k) != multiset{}) && |Observed(k)| == Bit(Observed(k) != multiset{})
  {
  }

  /** Double-entry bookkeeping: a step that moves one task keeps the balance when each account changes
      by exactly what the task's move is worth. */
  lemma Rebalance(p: Proc, q: Proc, t: TaskId, k: Task)
    requires Balanced(p) && q.cfg == p.cfg && q.tasks == p.tasks[t := k]
    requires q.globalFree >= 0 && q.globalFree == p.globalFree + Was(p.tasks, t, GlobalHolders) - Bit(Member(GlobalHolders, k))
    requires q.agentFree.Keys == p.agentFree.Keys
    requires forall a :: a in p.agentFree ==>
      q.agentFree[a] >= 0 && q.agentFree[a] == p.agentFree[a] + Was(p.tasks, t, AgentHolders(a)) - Bit(Member(AgentHolders(a), k))
    requires q.inflight == p.inflight + Bit(Member(InWindow, k)) - Was(p.tasks, t, InWindow)
    requires q.runs + TallyAt(p.tasks, t) == p.runs + Tallied(k)
    requires q.durations + ObservedAt(p.tasks, t) == p.durations + Observed(k)
    requires !k.pc.Done? ==> Known(p.cfg, k.agent)
    ensures Balanced(q)
  {
    hide Where;
    hide Member;
    WhereUpdate(p.tasks, t, k, GlobalHolders);
    WhereUpdate(p.tasks, t, k, InWindow);
    TotalsUpdate(p, q, t, k);
    forall a | a in q.agentFree
      ensures q.agentFree[a] + |Where(q.tasks, AgentHolders(a))| == q.cfg.agents[a].maxConcurrent
    {
      WhereUpdate(p.tasks, t, k, AgentHolders(a));
    }
    forall l ensures q.runs[l] == |Where(q.tasks, Counted(l))| {
      TallyUpdate(p, q, t, k, l);
    }
    forall a ensures q.durations[a] == |Where(q.tasks, Closed(a))| {
      ObservedUpdate(p, q, t, k, a);
    }
  }

  lemma BootBalanced(cfg: Config)
    ensures Balanced(Boot(cfg))
  {
    var p := Boot(cfg);
    assert forall g :: Where(p.tasks, g) == {};
  }

  lemma SubmitBalanced(p: Proc, t: TaskId, agent: AgentId, reason: string)
    requires Balanced(p) && t !in p.tasks
    ensures Balanced(Submit(p, t, agent, reason))
  {
    hide Where;
    var q := Submit(p, t, agent, reason);
    Rebalance(p, q, t, q.tasks[t]);
  }

  lemma TakeGlobalBalanced(p: Proc, t: TaskId)
    requires Balanced(p) && CanTakeGlobal(p, t)
    ensures Balanced(TakeGlobal(p, t))
  {
    hide Where;
    var q := TakeGlobal(p, t);
    Rebalance(p, q, t, q.tasks[t]);
  }

  lemma TakeAgentBalanced(p: Proc, t: TaskId)
    requires Balanced(p) && CanTakeAgent(p, t)
    ensures Balanced(TakeAgent(p, t))
  {
    hide Where;
    var q := TakeAgent(p, t);
    Rebalance(p, q, t, q.tasks[t]);
  }

  lemma CancelWaitBalanced(p: Proc, t: TaskId)
    requires Balanced(p) && (At(p, t, WaitGlobal) || At(p, t, WaitAgent))
    ensures Balanced(CancelWait(p, t))
  {
    hide Where;
    var q := CancelWait(p, t);
    Rebalance(p, q, t, q.tasks[t]);
  }

  /** Leaving with both permits, after the last increments (if any) of AGENT_RUNS made `runs` of p.runs. */
  lemma LeaveBalanced(p: Proc, runs: multiset<RunLabel>, t: TaskId, exit: Exit)
    requires Balanced(p) && t in p.tasks && HoldsAgent(p.tasks[t]) && p.tasks[t].agent in p.agentFree
    requires p.tasks[t].pc != Running
    requires runs + Tallied(p.tasks[t]) == p.runs + Tallied(p.tasks[t].(pc := Done(exit)))
    requires Observed(p.tasks[t]) == Observed(p.tasks[t].(pc := Done(exit)))
    ensures Balanced(Leave(p.(runs := runs), t, exit))
  {
    hide Where;
    hide Tallied;
    hide Observed;
    var q := Leave(p.(runs := runs), t, exit);
    Rebalance(p, q, t, q.tasks[t]);
  }

  lemma LockAnswerBalanced(p: Proc, t: TaskId, acquired: bool)
    requires Balanced(p) && At(p, t, Locking)
    ensures Balanced(LockAnswer(p, t, acquired))
  {
    hide Where;
    hide Leave;
    if acquired {
      var q := EnterRun(p, t);
      Rebalance(p, q, t, q.tasks[t]);
    } else {
      LeaveBalanced(p, p.runs, t, LockTaken);
    }
  }

  lemma LockFailBalanced(p: Proc, t: TaskId)
    requires Balanced(p) && At(p, t, Locking)
    ensures Balanced(LockFail(p, t))
  {
    hide Where;
    LeaveBalanced(p, p.runs, t, LockFailed);
  }

  lemma UnlockEndsBalanced(p: Proc, t: TaskId)
    requires Balanced(p) && Unlocks(p, t)
    ensures Balanced(UnlockEnds(p, t))
  {
    hide Where;
    hide Leave;
    var k := p.tasks[t];
    LeaveBalanced(p, p.runs + Reported(k), t, Finished(k.pc.end));
  }

  lemma UnlockCancelBalanced(p: Proc, t: TaskId)
    requires Balanced(p) && Unlocks(p, t)
    ensures Balanced(UnlockCancel(p, t))
  {
    hide Where;
    LeaveBalanced(p, p.runs, t, CutShort(p.tasks[t].pc.end));
  }

  lemma CloseWindowBalanced(p: Proc, t: TaskId, end: RunEnd)
    requires Balanced(p) && At(p, t, Running)
    ensures Balanced(CloseWindow(p, t, end)) && Unlocks(CloseWindow(p, t, end), t)
    ensures CloseWindow(p, t, end).cfg == p.cfg
  {
    hide Where;
    var q := CloseWindow(p, t, end);
    ClosingCounts(p.tasks[t], end);
    assert TallyAt(p.tasks, t) == multiset{} && ObservedAt(p.tasks, t) == multiset{};
    hide Tallied, Observed, Label, TallyAt, ObservedAt;
    Rebalance(p, q, t, q.tasks[t]);
  }

  lemma ClosingCounts(k: Task, end: RunEnd)
    requires k.pc == Running
    ensures Tallied(k) == multiset{} && Observed(k) == multiset{}
    ensures var u := k.(pc := Unlocking(end));
      Tallied(u) == (if end == Raised then Label(k, ResultError) else multiset{}) && Observed(u) == multiset{k.agent}
  {
  }

  lemma RunEndsBalanced(p: Proc, t: TaskId, end: RunEnd)
    requires Balanced(p) && At(p, t, Running)
    ensures Balanced(RunEnds(p, t, end))
  {
    CloseWindowBalanced(p, t, end);
    hide Balanced, CloseWindow, UnlockEnds, Unlocks;
    UnlockEndsBalanced(CloseWindow(p, t, end), t);
  }

  lemma AdvanceBalanced(p: Proc, t: TaskId, step: Step)
    requires Balanced(p) && CanAdvance(p, t, step)
    ensures Balanced(Advance(p, t, step))
  {
    hide Balanced;
    match step
    case Submitting(agent, reason) => SubmitBalanced(p, t, agent, reason);
    case GlobalTaken => TakeGlobalBalanced(p, t);
    case AgentTaken => TakeAgentBalanced(p, t);
    case WaitCancelled => CancelWaitBalanced(p, t);
    case LockAnswered(acquired) => LockAnswerBalanced(p, t, acquired);
    case LockBroken => LockFailBalanced(p, t);
    case RunEnded(end) => RunEndsBalanced(p, t, end);
    case UnlockEnded => UnlockEndsBalanced(p, t);
    case UnlockCancelled => UnlockCancelBalanced(p, t);
  }
}
